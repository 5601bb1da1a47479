/** The overshoot bound of the spend cap cannot be lowered: a run that reaches it. */
module OvershootReached {
  import opened Wrappers
  import opened Sums
  import opened SpendAlerts
  import opened Idempotency
  import opened IdempotencySafety

  const TENANT := "t"
  const PERIOD := "2026-01"

  lemma {:induction false} ThrottledExtend(s: Sys, steps: seq<Step>, step: Step, k: nat, m: nat)
    requires Executable(s, steps) && Throttled(s, steps, TENANT, k, m)
    requires Enabled(Run(s, steps), step) && !step.SetCap? && (step.Finalize? ==> step.f.cost <= m)
    requires |FlightSet(Next(Run(s, steps), step), TENANT)| <= k
    ensures Executable(s, steps + [step]) && Run(s, steps + [step]) == Next(Run(s, steps), step)
    ensures Throttled(s, steps + [step], TENANT, k, m)
    decreases |steps|
  {
    Extend(s, steps, step);
    var more := steps + [step];
    if steps == [] {
      assert more[1..] == [];
    } else {
      assert more[1..] == steps[1..] + [step];
      ThrottledExtend(Next(s, steps[0]), steps[1..], step, k, m);
    }
  }

  lemma FewInFlight(s: Sys, k: nat)
    requires s.requests.Keys <= Below(k)
    ensures |FlightSet(s, TENANT)| <= k
  {
    SubsetSize(FlightSet(s, TENANT), Below(k));
  }

  function Start(cap: int): Sys {
    Sys(0, Db(map[], map[TENANT := Account(Some(cap), cap - 1)], []), map[], map[])
  }

  function Snapshot(cap: int, phase: Phase): Request {
    Request(TENANT, None, Account(Some(cap), cap - 1), phase)
  }

  /** Requests below `arrived` were loaded before anything was spent; those below `paid` are settled. */
  function Roster(cap: int, arrived: nat, paid: nat): map<RequestId, Request> {
    map r | r in Below(arrived) :: Snapshot(cap, if r < paid then Settled else Authenticated)
  }

  /** Only paid requests own rows. */
  ghost predicate PaidRows(ledger: map<Slot, Row>, paid: nat) {
    forall slot {:trigger ledger[slot]} :: slot in ledger ==>
        ledger[slot].holder < paid && slot == Keyless(TENANT, ledger[slot].holder)
  }

  function Spent(cap: int, m: nat, paid: nat): int {
    cap - 1 + paid * m
  }

  ghost predicate Stage(s: Sys, cap: int, m: nat, arrived: nat, paid: nat) {
    && paid <= arrived && s.requests == Roster(cap, arrived, paid)
    && PaidRows(s.db.ledger, paid)
    && s.db.accounts == map[TENANT := Account(Some(cap), Spent(cap, m, paid))]
  }

  /** Request `paid` holds its claim. */
  ghost predicate HoldingStage(s: Sys, cap: int, m: nat, k: nat, paid: nat) {
    var slot := Keyless(TENANT, paid);
    && paid < k && s.requests == Roster(cap, k, paid)[paid := Snapshot(cap, Holding)]
    && slot in s.db.ledger && s.db.ledger[slot].holder == paid && s.db.ledger[slot].status.Pending?
    && PaidRows(s.db.ledger - {slot}, paid)
    && s.db.accounts == map[TENANT := Account(Some(cap), Spent(cap, m, paid))]
  }

  /** Request `paid` settled its row. */
  ghost predicate ChargingStage(s: Sys, cap: int, m: nat, k: nat, paid: nat) {
    && paid < k && s.requests == Roster(cap, k, paid)[paid := Snapshot(cap, Charging(m))]
    && PaidRows(s.db.ledger, paid + 1)
    && s.db.accounts == map[TENANT := Account(Some(cap), Spent(cap, m, paid))]
  }

  lemma ArriveStep(s: Sys, cap: int, m: nat, n: nat)
    requires Stage(s, cap, m, n, 0)
    ensures Enabled(s, Authenticate(n, TENANT, None)) && Stage(Next(s, Authenticate(n, TENANT, None)), cap, m, n + 1, 0)
  {
    assert n !in Below(n);
  }

  function Paid(m: nat): Settlement {
    Settlement(Completed, m, 200, map[])
  }

  lemma RowsSettled(before: map<Slot, Row>, after: map<Slot, Row>, paid: nat)
    requires PaidRows(before - {Keyless(TENANT, paid)}, paid) && after.Keys == before.Keys
    requires forall slot {:trigger after[slot]} :: slot in before ==> after[slot].holder == before[slot].holder
    requires Keyless(TENANT, paid) in before && before[Keyless(TENANT, paid)].holder == paid
    ensures PaidRows(after, paid + 1)
  {
    var rest := before - {Keyless(TENANT, paid)};
    forall slot | slot in after ensures after[slot].holder < paid + 1 && slot == Keyless(TENANT, after[slot].holder) {
      assert slot != Keyless(TENANT, paid) ==> slot in rest && rest[slot].holder < paid;
    }
  }

  lemma SettleStep(a: Sys, cap: int, m: nat, k: nat, paid: nat)
    requires m > 0 && HoldingStage(a, cap, m, k, paid)
    ensures Enabled(a, Finalize(paid, Paid(m))) && ChargingStage(Next(a, Finalize(paid, Paid(m))), cap, m, k, paid)
  {
    var slot := Keyless(TENANT, paid);
    assert Targets(slot, a.db.ledger[slot], TENANT, None, paid);
    assert slot in Hits(a.db, TENANT, None, paid);
    RowsSettled(a.db.ledger, Settle(a.db, TENANT, None, paid, Paid(m)).ledger, paid);
  }

  lemma BillCharges(b: Sys, spend: int, cap: int, m: nat, paid: nat)
    requires b.db.accounts == map[TENANT := Account(Some(cap), spend)]
    requires paid in b.requests && b.requests[paid] == Snapshot(cap, Charging(m))
    ensures Enabled(b, Bill(paid, PERIOD))
    ensures var c := Next(b, Bill(paid, PERIOD));
      && c.db.accounts == map[TENANT := Account(Some(cap), spend + m)] && c.db.ledger == b.db.ledger
      && c.requests == b.requests[paid := Snapshot(cap, Settled)]
  {
  }

  lemma RosterPays(cap: int, k: nat, m: nat, paid: nat)
    requires paid < k
    ensures Roster(cap, k, paid)[paid := Snapshot(cap, Charging(m))][paid := Snapshot(cap, Settled)]
        == Roster(cap, k, paid + 1)
  {
  }

  lemma BillStep(b: Sys, cap: int, m: nat, k: nat, paid: nat)
    requires ChargingStage(b, cap, m, k, paid)
    ensures Enabled(b, Bill(paid, PERIOD)) && Stage(Next(b, Bill(paid, PERIOD)), cap, m, k, paid + 1)
  {
    BillCharges(b, Spent(cap, m, paid), cap, m, paid);
    RosterPays(cap, k, m, paid);
    assert Spent(cap, m, paid) + m == Spent(cap, m, paid + 1) by { assert (paid + 1) * m == paid * m + m; }
  }

  /** A run within the limits that ends in `s`. */
  ghost predicate Ends(cap: int, k: nat, m: nat, steps: seq<Step>, s: Sys) {
    && Executable(Start(cap), steps) && Throttled(Start(cap), steps, TENANT, k, m)
    && Run(Start(cap), steps) == s
  }

  lemma Append(cap: int, k: nat, m: nat, before: seq<Step>, s: Sys, step: Step) returns (steps: seq<Step>)
    requires Ends(cap, k, m, before, s) && Enabled(s, step)
    requires !step.SetCap? && (step.Finalize? ==> step.f.cost <= m)
    requires Next(s, step).requests.Keys <= Below(k)
    ensures Ends(cap, k, m, steps, Next(s, step))
  {
    FewInFlight(Next(s, step), k);
    ThrottledExtend(Start(cap), before, step, k, m);
    steps := before + [step];
  }

  lemma Begin(cap: int, k: nat, m: nat)
    ensures Ends(cap, k, m, [], Start(cap)) && Stage(Start(cap), cap, m, 0, 0)
  {
    FewInFlight(Start(cap), k);
  }

  lemma ArriveOne(cap: int, k: nat, m: nat, n: nat, before: seq<Step>, s: Sys) returns (steps: seq<Step>, t: Sys)
    requires n < k && Ends(cap, k, m, before, s) && Stage(s, cap, m, n, 0)
    ensures Ends(cap, k, m, steps, t) && Stage(t, cap, m, n + 1, 0)
  {
    ArriveStep(s, cap, m, n);
    t := Next(s, Authenticate(n, TENANT, None));
    assert t.requests.Keys == Below(n + 1) <= Below(k);
    steps := Append(cap, k, m, before, s, Authenticate(n, TENANT, None));
  }

  lemma {:induction false} Arrive(cap: int, k: nat, m: nat, n: nat) returns (steps: seq<Step>, s: Sys)
    requires n <= k
    ensures Ends(cap, k, m, steps, s) && Stage(s, cap, m, n, 0)
  {
    if n == 0 {
      steps, s := [], Start(cap);
      Begin(cap, k, m);
    } else {
      var before, t := Arrive(cap, k, m, n - 1);
      steps, s := ArriveOne(cap, k, m, n - 1, before, t);
    }
  }

  lemma Keys(cap: int, k: nat, paid: nat, phase: Phase)
    requires paid < k
    ensures Roster(cap, k, paid).Keys == Roster(cap, k, paid)[paid := Snapshot(cap, phase)].Keys == Below(k)
  {
  }

  /** One more request pays. */
  lemma PayOne(cap: int, k: nat, m: nat, paid: nat, before: seq<Step>, s: Sys) returns (steps: seq<Step>, t: Sys)
    requires m > 0 && paid < k && Ends(cap, k, m, before, s) && Stage(s, cap, m, k, paid)
    ensures Ends(cap, k, m, steps, t) && Stage(t, cap, m, k, paid + 1)
  {
    Keys(cap, k, paid, Holding);
    steps := Append(cap, k, m, before, s, TryInsert(paid, s.now));
    t := Next(s, TryInsert(paid, s.now));
    steps, t := FinishOne(cap, k, m, paid, steps, t);
  }

  lemma FinishOne(cap: int, k: nat, m: nat, paid: nat, before: seq<Step>, s: Sys) returns (steps: seq<Step>, t: Sys)
    requires m > 0 && Ends(cap, k, m, before, s) && HoldingStage(s, cap, m, k, paid)
    ensures Ends(cap, k, m, steps, t) && Stage(t, cap, m, k, paid + 1)
  {
    Keys(cap, k, paid, Charging(m));
    SettleStep(s, cap, m, k, paid);
    var settled := Next(s, Finalize(paid, Paid(m)));
    steps := Append(cap, k, m, before, s, Finalize(paid, Paid(m)));
    BillStep(settled, cap, m, k, paid);
    t := Next(settled, Bill(paid, PERIOD));
    steps := Append(cap, k, m, steps, settled, Bill(paid, PERIOD));
  }

  lemma {:induction false} Pay(cap: int, k: nat, m: nat, n: nat) returns (steps: seq<Step>, s: Sys)
    requires n <= k && m > 0
    ensures Ends(cap, k, m, steps, s) && Stage(s, cap, m, k, n)
  {
    if n == 0 {
      steps, s := Arrive(cap, k, m, k);
    } else {
      var before, t := Pay(cap, k, m, n - 1);
      steps, s := PayOne(cap, k, m, n - 1, before, t);
    }
  }

  /** For every cap, every number of requests in flight and every positive cost limit, a run
      that keeps to those limits spends exactly `cap - 1 + k * m`. */
  lemma OvershootBoundReached(cap: int, k: nat, m: nat) returns (steps: seq<Step>)
    requires m > 0
    ensures Initial(Start(cap)) && Executable(Start(cap), steps) && Throttled(Start(cap), steps, TENANT, k, m)
    ensures TENANT in Run(Start(cap), steps).db.accounts
    ensures Run(Start(cap), steps).db.accounts[TENANT].spend == cap - 1 + k * m
  {
    var s;
    steps, s := Pay(cap, k, m, k);
  }
}
