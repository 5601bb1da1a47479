/** What every interleaving of the claim protocol keeps: leases, replays, spend. */
module IdempotencySafety {
  import opened Wrappers
  import opened SpendAlerts
  import opened Idempotency
  import opened Sums

  /* ---------- Leases ---------- */

  ghost predicate WasHolder(s: Sys, r: RequestId) {
    && r in s.requests
    && var p := s.requests[r].phase; p.Holding? || p.Charging? || p.Settled? || p.Lost?
  }

  /** A row belongs to a request of its own slot, and a pending row to one still holding it. */
  ghost predicate RowOwned(s: Sys, slot: Slot)
    requires slot in s.db.ledger
  {
    var row := s.db.ledger[slot];
    && WasHolder(s, row.holder)
    && SlotFor(s, row.holder) == slot
    && (row.status.Pending? ==> s.requests[row.holder].phase.Holding? && row.cost == 0)
    && (!row.status.Pending? ==> row.code.Some? && row.body.Some?)
  }

  /** What a request remembers is still true of its row, if the row is still that claim. */
  ghost predicate MemorySound(s: Sys, r: RequestId)
    requires r in s.requests
  {
    var p := s.requests[r].phase;
    var slot := SlotFor(s, r);
    && (!p.Authenticated? ==> slot in s.db.ledger)
    && !p.Broken?
    && (p.Reclaiming? ==>
          && WasHolder(s, p.seen) && p.stamp <= s.now
          && (s.db.ledger[slot].holder == p.seen ==> p.stamp - s.db.ledger[slot].claimedAt > LEASE))
    && (p.Charging? || p.Settled? ==>
          s.db.ledger[slot].holder == r && !s.db.ledger[slot].status.Pending?)
    && (p.Replayed? ==>
          && !s.db.ledger[slot].status.Pending?
          && Inspect(Some(s.db.ledger[slot]), s.now) == Replay(p.code, p.body))
  }

  /** Successive claims carry stamps more than a lease apart. */
  ghost predicate LeasesApart(cs: seq<Claim>) {
    forall i :: 0 <= i < |cs| - 1 ==> cs[i + 1].stamp - cs[i].stamp > LEASE
  }

  /** The claim history of a slot ends in the row's current holder. */
  ghost predicate HistoryFaithful(s: Sys, slot: Slot)
    requires slot in s.db.ledger && slot in s.claims
  {
    var cs := s.claims[slot];
    && cs != []
    && LeasesApart(cs)
    && (forall i :: 0 <= i < |cs| ==> cs[i].stamp <= cs[i].written <= s.now)
    && cs[|cs| - 1].request == s.db.ledger[slot].holder
    && cs[|cs| - 1].stamp == s.db.ledger[slot].claimedAt
  }

  ghost predicate LeaseInv(s: Sys) {
    && s.claims.Keys == s.db.ledger.Keys
    && (forall slot {:trigger RowOwned(s, slot)} :: slot in s.db.ledger ==> RowOwned(s, slot))
    && (forall r {:trigger MemorySound(s, r)} :: r in s.requests ==> MemorySound(s, r))
    && (forall slot {:trigger HistoryFaithful(s, slot)} :: slot in s.db.ledger ==> HistoryFaithful(s, slot))
  }

  /** The finalizing UPDATE can only ever match the request's own slot. */
  lemma HitsOwnSlot(s: Sys, r: RequestId)
    requires LeaseInv(s) && r in s.requests
    ensures var q := s.requests[r]; var slot := SlotFor(s, r);
            Hits(s.db, q.tenant, q.key, r) ==
              if slot in s.db.ledger && s.db.ledger[slot].holder == r && s.db.ledger[slot].status.Pending?
              then {slot} else {}
  {
    forall slot | slot in Hits(s.db, s.requests[r].tenant, s.requests[r].key, r)
      ensures slot == SlotFor(s, r)
    {
      assert RowOwned(s, slot);
    }
  }

  lemma SettleOwnSlot(s: Sys, r: RequestId, f: Settlement)
    requires LeaseInv(s) && r in s.requests
    requires Hits(s.db, s.requests[r].tenant, s.requests[r].key, r) != {}
    ensures var slot := SlotFor(s, r);
            && slot in s.db.ledger && s.db.ledger[slot].holder == r && s.db.ledger[slot].status.Pending?
            && s.requests[r].phase.Holding?
            && Settle(s.db, s.requests[r].tenant, s.requests[r].key, r, f) ==
               s.db.(ledger := s.db.ledger[slot := s.db.ledger[slot].(
                 status := f.status, cost := f.cost, code := Some(f.code), body := Some(f.body))])
  {
    HitsOwnSlot(s, r);
    var slot := SlotFor(s, r);
    var q := s.requests[r];
    assert Hits(s.db, q.tenant, q.key, r) == {slot};
    assert RowOwned(s, slot);
    forall other | other in s.db.ledger
      ensures Targets(other, s.db.ledger[other], q.tenant, q.key, r) <==> other == slot
    {
      assert Targets(other, s.db.ledger[other], q.tenant, q.key, r) <==> other in Hits(s.db, q.tenant, q.key, r);
    }
    assert Settle(s.db, q.tenant, q.key, r, f).ledger == s.db.ledger[slot := s.db.ledger[slot].(
      status := f.status, cost := f.cost, code := Some(f.code), body := Some(f.body))];
  }

  /** A request that does not hold its claim finalizes nothing. */
  lemma NotHoldingNoHits(s: Sys, r: RequestId)
    requires LeaseInv(s) && r in s.requests && !s.requests[r].phase.Holding?
    ensures Hits(s.db, s.requests[r].tenant, s.requests[r].key, r) == {}
  {
    HitsOwnSlot(s, r);
    var slot := SlotFor(s, r);
    if slot in s.db.ledger {
      assert RowOwned(s, slot);
    }
  }

  /** Steps that leave ledger and history alone and move no holder out of its claim. */
  lemma QuietStep(s: Sys, t: Sys)
    requires LeaseInv(s)
    requires t.db.ledger == s.db.ledger && t.claims == s.claims && s.now <= t.now
    requires forall r :: r in s.requests ==>
      && r in t.requests && SlotFor(t, r) == SlotFor(s, r)
      && (WasHolder(s, r) ==> WasHolder(t, r))
      && (Hits(s.db, s.requests[r].tenant, s.requests[r].key, r) != {} ==> t.requests[r].phase == s.requests[r].phase)
    requires forall r :: r in t.requests ==>
        (r in s.requests && t.requests[r].phase == s.requests[r].phase) || MemorySound(t, r)
    ensures LeaseInv(t)
  {
    forall slot | slot in t.db.ledger ensures RowOwned(t, slot) && HistoryFaithful(t, slot) {
      assert RowOwned(s, slot) && HistoryFaithful(s, slot);
      HitsOwnSlot(s, s.db.ledger[slot].holder);
    }
    forall r | r in t.requests ensures MemorySound(t, r) {
      if r in s.requests && t.requests[r].phase == s.requests[r].phase {
        assert MemorySound(s, r);
      }
    }
  }

  lemma FreshInsertKeepsLeases(s: Sys, r: RequestId, stamp: int)
    requires LeaseInv(s) && Enabled(s, TryInsert(r, stamp)) && SlotFor(s, r) !in s.db.ledger
    ensures LeaseInv(Next(s, TryInsert(r, stamp)))
  {
    var slot := SlotFor(s, r);
    var t := Next(s, TryInsert(r, stamp));
    forall x | x in t.db.ledger ensures RowOwned(t, x) && HistoryFaithful(t, x) {
      if x != slot {
        assert RowOwned(s, x) && HistoryFaithful(s, x);
      } else {
        assert t.claims[slot] == [Claim(r, stamp, s.now)];
      }
    }
    forall x | x in t.requests ensures MemorySound(t, x) {
      assert MemorySound(s, x);
    }
  }

  lemma InsertKeepsLeases(s: Sys, r: RequestId, stamp: int)
    requires LeaseInv(s) && Enabled(s, TryInsert(r, stamp))
    ensures LeaseInv(Next(s, TryInsert(r, stamp)))
  {
    if SlotFor(s, r) in s.db.ledger {
      NotHoldingNoHits(s, r);
      QuietStep(s, Next(s, TryInsert(r, stamp)));
    } else {
      FreshInsertKeepsLeases(s, r, stamp);
    }
  }

  lemma HitKeepsRows(s: Sys, r: RequestId)
    requires LeaseInv(s) && Enabled(s, TryReclaim(r)) && ReclaimHits(s.db, SlotFor(s, r), s.requests[r].phase.seen)
    ensures var t := Next(s, TryReclaim(r));
      && t.claims.Keys == t.db.ledger.Keys
      && (forall x {:trigger RowOwned(t, x)} :: x in t.db.ledger ==> RowOwned(t, x))
      && (forall x {:trigger HistoryFaithful(t, x)} :: x in t.db.ledger ==> HistoryFaithful(t, x))
  {
    NotHoldingNoHits(s, r);
    var slot := SlotFor(s, r);
    var t := Next(s, TryReclaim(r));
    assert MemorySound(s, r);
    forall x | x in t.db.ledger ensures RowOwned(t, x) && HistoryFaithful(t, x) {
      assert RowOwned(s, x) && HistoryFaithful(s, x);
      if x == slot {
        assert t.claims[slot] == s.claims[slot] + [Claim(r, s.requests[r].phase.stamp, s.now)];
      }
    }
  }

  lemma HitKeepsMemories(s: Sys, r: RequestId)
    requires LeaseInv(s) && Enabled(s, TryReclaim(r)) && ReclaimHits(s.db, SlotFor(s, r), s.requests[r].phase.seen)
    ensures var t := Next(s, TryReclaim(r));
      forall x {:trigger MemorySound(t, x)} :: x in t.requests ==> MemorySound(t, x)
  {
    var t := Next(s, TryReclaim(r));
    assert MemorySound(s, r);
    assert RowOwned(s, SlotFor(s, r));
    forall x | x in t.requests ensures MemorySound(t, x) {
      assert MemorySound(s, x);
    }
  }

  lemma ReclaimKeepsLeases(s: Sys, r: RequestId)
    requires LeaseInv(s) && Enabled(s, TryReclaim(r))
    ensures LeaseInv(Next(s, TryReclaim(r)))
  {
    if ReclaimHits(s.db, SlotFor(s, r), s.requests[r].phase.seen) {
      HitKeepsRows(s, r);
      HitKeepsMemories(s, r);
    } else {
      NotHoldingNoHits(s, r);
      assert MemorySound(s, r);
      QuietStep(s, Next(s, TryReclaim(r)));
    }
  }

  lemma SettlingKeepsRows(s: Sys, r: RequestId, f: Settlement)
    requires LeaseInv(s) && Enabled(s, Finalize(r, f)) && Hits(s.db, s.requests[r].tenant, s.requests[r].key, r) != {}
    ensures var t := Next(s, Finalize(r, f));
      && t.claims.Keys == t.db.ledger.Keys
      && (forall x {:trigger RowOwned(t, x)} :: x in t.db.ledger ==> RowOwned(t, x))
      && (forall x {:trigger HistoryFaithful(t, x)} :: x in t.db.ledger ==> HistoryFaithful(t, x))
  {
    var t := Next(s, Finalize(r, f));
    HitsOwnSlot(s, r);
    SettleOwnSlot(s, r, f);
    forall x | x in t.db.ledger ensures RowOwned(t, x) && HistoryFaithful(t, x) {
      assert RowOwned(s, x) && HistoryFaithful(s, x);
    }
  }

  lemma SettlingKeepsMemories(s: Sys, r: RequestId, f: Settlement)
    requires LeaseInv(s) && Enabled(s, Finalize(r, f)) && Hits(s.db, s.requests[r].tenant, s.requests[r].key, r) != {}
    ensures var t := Next(s, Finalize(r, f));
      forall x {:trigger MemorySound(t, x)} :: x in t.requests ==> MemorySound(t, x)
  {
    var t := Next(s, Finalize(r, f));
    HitsOwnSlot(s, r);
    SettleOwnSlot(s, r, f);
    assert MemorySound(s, r) && RowOwned(s, SlotFor(s, r));
    forall x | x in t.requests ensures MemorySound(t, x) {
      assert MemorySound(s, x);
    }
  }

  lemma FinalizeKeepsLeases(s: Sys, r: RequestId, f: Settlement)
    requires LeaseInv(s) && Enabled(s, Finalize(r, f))
    ensures LeaseInv(Next(s, Finalize(r, f)))
  {
    if Hits(s.db, s.requests[r].tenant, s.requests[r].key, r) == {} {
      assert MemorySound(s, r);
      QuietStep(s, Next(s, Finalize(r, f)));
    } else {
      SettlingKeepsRows(s, r, f);
      SettlingKeepsMemories(s, r, f);
    }
  }

  lemma LookKeepsLeases(s: Sys, r: RequestId)
    requires LeaseInv(s) && Enabled(s, Look(r))
    ensures LeaseInv(Next(s, Look(r)))
  {
    assert MemorySound(s, r);
    assert RowOwned(s, SlotFor(s, r));
    NotHoldingNoHits(s, r);
    QuietStep(s, Next(s, Look(r)));
  }

  lemma BillKeepsLeases(s: Sys, r: RequestId, period: string)
    requires LeaseInv(s) && Enabled(s, Bill(r, period))
    ensures LeaseInv(Next(s, Bill(r, period)))
  {
    NotHoldingNoHits(s, r);
    assert MemorySound(s, r);
    QuietStep(s, Next(s, Bill(r, period)));
  }

  lemma StepKeepsLeases(s: Sys, step: Step)
    requires LeaseInv(s) && Enabled(s, step)
    ensures LeaseInv(Next(s, step))
  {
    match step
    case TryInsert(r, stamp) => InsertKeepsLeases(s, r, stamp);
    case TryReclaim(r) => ReclaimKeepsLeases(s, r);
    case Finalize(r, f) => FinalizeKeepsLeases(s, r, f);
    case Look(r) => LookKeepsLeases(s, r);
    case Bill(r, period) => BillKeepsLeases(s, r, period);
    case Tick(_) => QuietStep(s, Next(s, step));
    case SetCap(_, _) => QuietStep(s, Next(s, step));
    case Authenticate(_, _, _) => QuietStep(s, Next(s, step));
  }

  /** Every reachable state satisfies the lease invariant. */
  lemma {:induction false} RunKeepsLeases(s: Sys, steps: seq<Step>)
    requires LeaseInv(s) && Executable(s, steps)
    ensures LeaseInv(Run(s, steps))
    decreases |steps|
  {
    if steps != [] {
      StepKeepsLeases(s, steps[0]);
      RunKeepsLeases(Next(s, steps[0]), steps[1..]);
    }
  }

  lemma InitialLeases(s: Sys)
    requires Initial(s)
    ensures LeaseInv(s)
  {
  }

  ghost predicate Reaches(s: Sys, steps: seq<Step>, t: Sys) {
    Initial(s) && Executable(s, steps) && t == Run(s, steps)
  }

  /** Lease safety over whole runs: on one (tenant, key), successive successful claims
      carry stamps more than 90 seconds apart, and the last one owns the row. */
  lemma LeaseSafety(s: Sys, steps: seq<Step>, t: Sys, slot: Slot)
    requires Reaches(s, steps, t) && slot in t.claims
    ensures LeasesApart(t.claims[slot])
    ensures slot in t.db.ledger && t.claims[slot] != []
    ensures t.claims[slot][|t.claims[slot]| - 1].request == t.db.ledger[slot].holder
  {
    InitialLeases(s);
    RunKeepsLeases(s, steps);
    assert HistoryFaithful(t, slot);
  }

  /** The history is exactly the successful claims: it grows by one entry in the very
      step in which a request starts to hold the slot, and in no other. */
  lemma HistoryIsTheClaims(s: Sys, step: Step, r: RequestId)
    requires LeaseInv(s) && Enabled(s, step) && r in s.requests
    ensures var t := Next(s, step); var slot := SlotFor(s, r);
            var before := if slot in s.claims then s.claims[slot] else [];
            !s.requests[r].phase.Holding? && t.requests[r].phase.Holding?
            ==> && ((step.TryInsert? && step.request == r) || step == TryReclaim(r))
                && slot in t.claims && |t.claims[slot]| == |before| + 1 && before <= t.claims[slot]
                && t.claims[slot][|before|].request == r
                && t.claims[slot][|before|].written == s.now
                && (step.TryInsert? ==> slot !in s.db.ledger)
                && (step.TryReclaim? ==> s.now - s.db.ledger[slot].claimedAt > LEASE)
                && t.claims - {slot} == s.claims - {slot}
    ensures var t := Next(s, step);
            (forall x :: x in s.requests ==> !(!s.requests[x].phase.Holding? && t.requests[x].phase.Holding?))
            ==> t.claims == s.claims
  {
    if step.TryReclaim? {
      assert MemorySound(s, step.request);
    }
  }

  /** A row leaves `pending` only when its latest claimer finalizes it. */
  lemma OnlyLatestClaimerSettles(s: Sys, step: Step, slot: Slot)
    requires LeaseInv(s) && Enabled(s, step)
    requires slot in s.db.ledger && s.db.ledger[slot].status.Pending?
    requires !Next(s, step).db.ledger[slot].status.Pending?
    ensures step.Finalize?
    ensures slot in s.claims && s.claims[slot] != []
    ensures step.request == s.db.ledger[slot].holder == s.claims[slot][|s.claims[slot]| - 1].request
    ensures Next(s, step).db.ledger[slot] == s.db.ledger[slot].(
              status := step.f.status, cost := step.f.cost,
              code := Some(step.f.code), body := Some(step.f.body))
  {
    assert RowOwned(s, slot) && HistoryFaithful(s, slot);
    if step.Finalize? {
      HitsOwnSlot(s, step.request);
    }
  }

  /** A settled row is frozen: no later step of any request changes it. */
  lemma {:induction false} SettledForever(s: Sys, steps: seq<Step>, slot: Slot)
    requires LeaseInv(s) && Executable(s, steps)
    requires slot in s.db.ledger && !s.db.ledger[slot].status.Pending?
    ensures slot in Run(s, steps).db.ledger
    ensures Run(s, steps).db.ledger[slot] == s.db.ledger[slot]
    ensures slot in Run(s, steps).claims && Run(s, steps).claims[slot] == s.claims[slot]
    decreases |steps|
  {
    if steps != [] {
      StepKeepsLeases(s, steps[0]);
      SettledForever(Next(s, steps[0]), steps[1..], slot);
    }
  }

  /** Replay exactness: once a row is settled with (code, body), a later claim that
      looks at it is answered with that body and code (a stored 0 reads as 200), as is
      every replay ever given for the slot, and nobody claims the slot again. */
  lemma ReplayExact(s: Sys, steps: seq<Step>, slot: Slot, code: int, body: Body, r: RequestId)
    requires LeaseInv(s) && Executable(s, steps)
    requires slot in s.db.ledger && !s.db.ledger[slot].status.Pending?
    requires s.db.ledger[slot].code == Some(code) && s.db.ledger[slot].body == Some(body)
    requires r in Run(s, steps).requests && SlotFor(Run(s, steps), r) == slot
    ensures var t := Run(s, steps); var p := t.requests[r].phase; var shown := if code == 0 then 200 else code;
            && (p.Replayed? ==> p == Replayed(shown, body))
            && (p.Authenticated? ==> forall stamp :: stamp <= t.now ==>
                Next(t, TryInsert(r, stamp)).requests[r].phase == Contending)
            && (p.Contending? ==> Next(t, Look(r)).requests[r].phase == Replayed(shown, body))
            && (p.Reclaiming? ==> Next(t, TryReclaim(r)).requests[r].phase == Rejected)
  {
    RunKeepsLeases(s, steps);
    SettledForever(s, steps, slot);
    assert MemorySound(Run(s, steps), r);
  }

  ghost predicate HasSettled(s: Sys, r: RequestId) {
    r in s.requests && (s.requests[r].phase.Settled? || s.requests[r].phase.Charging?)
  }

  /** The request is still on its way to an answer about the slot. */
  ghost predicate Undecided(s: Sys, r: RequestId, slot: Slot) {
    && r in s.requests && SlotFor(s, r) == slot
    && var p := s.requests[r].phase; p.Authenticated? || p.Contending? || p.Reclaiming?
  }

  /** What becomes of a caller of a settled slot: it waits, or it has its answer. */
  ghost predicate AnswerOf(s: Sys, r: RequestId, slot: Slot, reclaims: bool, stored: Phase) {
    && r in s.requests && SlotFor(s, r) == slot
    && var p := s.requests[r].phase;
      if reclaims then p.Reclaiming? || p == Rejected
      else p.Authenticated? || p.Contending? || p == stored
  }

  /** The answer stored in a settled row. */
  function Stored(row: Row): Phase {
    PhaseAfter(Inspect(Some(row), 0), 0)
  }

  lemma AnswerStep(s: Sys, step: Step, r: RequestId, slot: Slot, reclaims: bool)
    requires LeaseInv(s) && Enabled(s, step)
    requires slot in s.db.ledger && !s.db.ledger[slot].status.Pending?
    requires AnswerOf(s, r, slot, reclaims, Stored(s.db.ledger[slot]))
    ensures AnswerOf(Next(s, step), r, slot, reclaims, Stored(s.db.ledger[slot]))
  {
    assert MemorySound(s, r);
  }

  lemma {:induction false} AnswersHold(s: Sys, steps: seq<Step>, r: RequestId, slot: Slot, reclaims: bool)
    requires LeaseInv(s) && Executable(s, steps)
    requires slot in s.db.ledger && !s.db.ledger[slot].status.Pending?
    requires AnswerOf(s, r, slot, reclaims, Stored(s.db.ledger[slot]))
    ensures AnswerOf(Run(s, steps), r, slot, reclaims, Stored(s.db.ledger[slot]))
    decreases |steps|
  {
    if steps != [] {
      AnswerStep(s, steps[0], r, slot, reclaims);
      StepKeepsLeases(s, steps[0]);
      SettledForever(s, [steps[0]], slot);
      assert [steps[0]][1..] == [];
      AnswersHold(Next(s, steps[0]), steps[1..], r, slot, reclaims);
    }
  }

  /** Whoever waits for a slot when it is settled: in every continuation, once it is decided, it
      was refused with 409 if and only if it had already seen the lease expired, and otherwise
      replays the stored answer. */
  lemma SettledAnswers(s: Sys, steps: seq<Step>, r: RequestId, slot: Slot)
    requires LeaseInv(s) && Executable(s, steps)
    requires slot in s.db.ledger && !s.db.ledger[slot].status.Pending? && Undecided(s, r, slot)
    ensures var t := Run(s, steps); var row := s.db.ledger[slot];
      && r in t.requests && row.code.Some? && row.body.Some?
      && (!Undecided(t, r, slot) ==>
            && (t.requests[r].phase == Rejected <==> s.requests[r].phase.Reclaiming?)
            && (!s.requests[r].phase.Reclaiming? ==>
                  t.requests[r].phase == Replayed(if row.code.value == 0 then 200 else row.code.value, row.body.value)))
  {
    assert RowOwned(s, slot);
    AnswersHold(s, steps, r, slot, s.requests[r].phase.Reclaiming?);
  }

  /** At most one request of a slot ever settles it: whoever has settled it in one state of a run
      and whoever has in the same or a later state are the same. The 500 answer never occurs. */
  lemma AtMostOneSettles(s: Sys, steps: seq<Step>, t: Sys, more: seq<Step>, a: RequestId, b: RequestId)
    requires Reaches(s, steps, t) && Executable(t, more)
    ensures a in t.requests ==> !t.requests[a].phase.Broken?
    ensures var u := Run(t, more);
      HasSettled(t, a) && HasSettled(u, b) && SlotFor(t, a) == SlotFor(u, b) ==> a == b
  {
    InitialLeases(s);
    RunKeepsLeases(s, steps);
    RunKeepsLeases(t, more);
    assert a in t.requests ==> MemorySound(t, a);
    if HasSettled(t, a) {
      SettledForever(t, more, SlotFor(t, a));
    }
    assert b in Run(t, more).requests ==> MemorySound(Run(t, more), b);
  }

  /** Having settled is never lost, however often the request is finalized again. */
  lemma {:induction false} StaysSettled(s: Sys, steps: seq<Step>, r: RequestId)
    requires LeaseInv(s) && Executable(s, steps) && HasSettled(s, r)
    ensures HasSettled(Run(s, steps), r)
    decreases |steps|
  {
    if steps != [] {
      StepKeepsLeases(s, steps[0]);
      StaysSettled(Next(s, steps[0]), steps[1..], r);
    }
  }

  /* ---------- Leases in real time ---------- */

  ghost predicate LagAtMost(t: Sys, lag: int) {
    forall slot, i :: slot in t.claims && 0 <= i < |t.claims[slot]| ==>
      t.claims[slot][i].written - t.claims[slot][i].stamp <= lag
  }

  ghost predicate WritesApart(t: Sys) {
    forall slot, i :: slot in t.claims && 0 <= i < |t.claims[slot]| - 1 ==>
      t.claims[slot][i + 1].written - t.claims[slot][i].written > LEASE
  }

  lemma {:induction false} Extend(s: Sys, steps: seq<Step>, step: Step)
    requires Executable(s, steps) && Enabled(Run(s, steps), step)
    ensures Executable(s, steps + [step]) && Run(s, steps + [step]) == Next(Run(s, steps), step)
    decreases |steps|
  {
    if steps == [] {
      assert ([step])[1..] == [];
    } else {
      Extend(Next(s, steps[0]), steps[1..], step);
      assert (steps + [step])[1..] == steps[1..] + [step];
    }
  }

  lemma ExtendAll(s: Sys, steps: seq<Step>, more: seq<Step>)
    requires Executable(s, steps) && Executable(Run(s, steps), more)
    ensures Executable(s, steps + more) && Run(s, steps + more) == Run(Run(s, steps), more)
    decreases |more|
  {
    if more == [] {
      assert steps + more == steps;
    } else {
      Extend(s, steps, more[0]);
      ExtendAll(s, steps + [more[0]], more[1..]);
      assert steps + [more[0]] + more[1..] == steps + more;
    }
  }

  const SLOT := Keyed("t", "k")

  /** Request `r` arrives, finds the key taken and, `wait` later, its lease expired. */
  lemma SeesExpired(s: Sys, r: RequestId, wait: nat) returns (steps: seq<Step>)
    requires "t" in s.db.accounts && r !in s.requests && SLOT in s.db.ledger
    requires s.db.ledger[SLOT].status.Pending? && s.now + wait - s.db.ledger[SLOT].claimedAt > LEASE
    ensures Executable(s, steps)
    ensures var t := Run(s, steps);
      && t.now == s.now + wait && t.db == s.db && t.claims == s.claims
      && t.requests.Keys == s.requests.Keys + {r}
      && (forall x :: x in s.requests ==> t.requests[x] == s.requests[x])
      && SlotFor(t, r) == SLOT && t.requests[r].phase == Reclaiming(s.db.ledger[SLOT].holder, t.now)
  {
    steps := [];
    Extend(s, steps, Authenticate(r, "t", Some("k"))); steps := steps + [Authenticate(r, "t", Some("k"))];
    Extend(s, steps, TryInsert(r, s.now)); steps := steps + [TryInsert(r, s.now)];
    Extend(s, steps, Tick(wait)); steps := steps + [Tick(wait)];
    Extend(s, steps, Look(r)); steps := steps + [Look(r)];
  }

  /** It then swaps itself in, `lag` after its read. */
  lemma SwapsIn(s: Sys, r: RequestId, lag: nat) returns (steps: seq<Step>)
    requires SLOT in s.db.ledger && SLOT in s.claims && s.db.ledger[SLOT].status.Pending?
    requires r in s.requests && SlotFor(s, r) == SLOT &&
        s.requests[r].phase == Reclaiming(s.db.ledger[SLOT].holder, s.now)
    ensures Executable(s, steps)
    ensures var t := Run(s, steps);
      && t.now == s.now + lag && t.db.accounts == s.db.accounts && t.requests.Keys == s.requests.Keys
      && t.db.ledger == s.db.ledger[SLOT := s.db.ledger[SLOT].(holder := r, claimedAt := s.now)]
      && t.claims == s.claims[SLOT := s.claims[SLOT] + [Claim(r, s.now, t.now)]]
  {
    steps := [];
    Extend(s, steps, Tick(lag)); steps := steps + [Tick(lag)];
    Extend(s, steps, TryReclaim(r)); steps := steps + [TryReclaim(r)];
  }

  lemma Contender(s: Sys, r: RequestId, wait: nat, lag: nat) returns (steps: seq<Step>)
    requires "t" in s.db.accounts && r !in s.requests && SLOT in s.db.ledger && SLOT in s.claims
    requires s.db.ledger[SLOT].status.Pending? && s.now + wait - s.db.ledger[SLOT].claimedAt > LEASE
    ensures Executable(s, steps)
    ensures var t := Run(s, steps); var stamp := s.now + wait;
      && t.now == stamp + lag
      && t.db.accounts == s.db.accounts && t.requests.Keys == s.requests.Keys + {r}
      && t.db.ledger == s.db.ledger[SLOT := s.db.ledger[SLOT].(holder := r, claimedAt := stamp)]
      && t.claims == s.claims[SLOT := s.claims[SLOT] + [Claim(r, stamp, t.now)]]
  {
    steps := SeesExpired(s, r, wait);
    var more := SwapsIn(Run(s, steps), r, lag);
    ExtendAll(s, steps, more);
    steps := steps + more;
  }

  /** Request 0 claims the slot in a transaction that began at time 0, `lag` before its insert. */
  lemma FirstClaim(s: Sys, lag: nat) returns (steps: seq<Step>)
    requires s == BEGIN
    ensures Executable(s, steps)
    ensures var t := Run(s, steps);
      && t.now == lag && t.db.accounts == s.db.accounts && t.requests.Keys == {0}
      && SlotFor(t, 0) == SLOT && t.requests[0].phase == Holding
      && t.db.ledger == map[SLOT := Row(0, 0, Pending, 0, None, None)]
      && t.claims == map[SLOT := [Claim(0, 0, lag)]]
  {
    steps := [];
    Extend(s, steps, Authenticate(0, "t", Some("k"))); steps := steps + [Authenticate(0, "t", Some("k"))];
    Extend(s, steps, Tick(lag)); steps := steps + [Tick(lag)];
    Extend(s, steps, TryInsert(0, 0)); steps := steps + [TryInsert(0, 0)];
    assert Run(s, steps).claims[SLOT] == [] + [Claim(0, 0, lag)] == [Claim(0, 0, lag)];
  }

  const BEGIN := Sys(0, Db(map[], map["t" := Account(None, 0)], []), map[], map[])

  /** Successive writes of a slot are at least `gap` apart. */
  ghost predicate WritesApartBy(t: Sys, gap: int) {
    forall slot, i :: slot in t.claims && 0 <= i < |t.claims[slot]| - 1 ==>
      t.claims[slot][i + 1].written - t.claims[slot][i].written >= gap
  }

  /** Claims are written in order. */
  ghost predicate WritesInOrder(s: Sys) {
    forall slot, i :: slot in s.claims && 0 <= i < |s.claims[slot]| ==>
      && s.claims[slot][i].written <= s.now
      && (i > 0 ==> s.claims[slot][i - 1].written <= s.claims[slot][i].written)
  }

  lemma {:induction false} RunWritesInOrder(s: Sys, steps: seq<Step>)
    requires WritesInOrder(s) && Executable(s, steps)
    ensures WritesInOrder(Run(s, steps))
    decreases |steps|
  {
    if steps != [] {
      RunWritesInOrder(Next(s, steps[0]), steps[1..]);
    }
  }

  /** An insert is stamped with the start of its transaction but written `lag` later; the reclaim
      that follows is not late. */
  lemma LaggingRun(lag: nat) returns (s: Sys, steps: seq<Step>)
    requires lag <= LEASE + 1
    ensures Initial(s) && Executable(s, steps)
    ensures Run(s, steps).claims == map[SLOT := [Claim(0, 0, lag), Claim(1, LEASE + 1, LEASE + 1)]]
  {
    s := BEGIN;
    steps := FirstClaim(s, lag);
    var more := Contender(Run(s, steps), 1, LEASE + 1 - lag, 0);
    ExtendAll(s, steps, more); steps := steps + more;
    assert Run(s, steps).claims[SLOT] == [Claim(0, 0, lag), Claim(1, LEASE + 1, LEASE + 1)];
  }

  /** One microsecond between the start of a transaction and its insert lets two writes be only
      90 seconds apart, although the reclaim is not late at all. */
  lemma LaggingInsert() returns (s: Sys, steps: seq<Step>)
    ensures Initial(s) && Executable(s, steps)
    ensures var t := Run(s, steps);
      && LagAtMost(t, 1) && !WritesApart(t)
      && forall slot, i :: slot in t.claims && 0 < i < |t.claims[slot]| ==>
          t.claims[slot][i].written == t.claims[slot][i].stamp
  {
    s, steps := LaggingRun(1);
    var cs := Run(s, steps).claims[SLOT];
    assert cs[1].written - cs[0].written == LEASE;
  }

  /** So does one microsecond between the SELECT of a reclaim and its write. */
  lemma LaggingReclaim() returns (s: Sys, steps: seq<Step>)
    ensures Initial(s) && Executable(s, steps)
    ensures var t := Run(s, steps);
      && LagAtMost(t, 1) && !WritesApart(t)
      && forall slot :: slot in t.claims && t.claims[slot] != [] ==>
          t.claims[slot][0].written == t.claims[slot][0].stamp
  {
    s := BEGIN;
    steps := FirstClaim(s, 0);
    var more := Contender(Run(s, steps), 1, LEASE + 1, 1);
    ExtendAll(s, steps, more); steps := steps + more;
    assert Run(s, steps).claims[SLOT] == [Claim(0, 0, 0), Claim(1, LEASE + 1, LEASE + 2)];
    more := Contender(Run(s, steps), 2, LEASE, 0);
    ExtendAll(s, steps, more); steps := steps + more;
    var cs := Run(s, steps).claims[SLOT];
    assert cs == [Claim(0, 0, 0), Claim(1, LEASE + 1, LEASE + 2), Claim(2, 2 * LEASE + 2, 2 * LEASE + 2)];
    assert cs[2].written - cs[1].written == LEASE;
  }

  ghost predicate GapKept(s: Sys, steps: seq<Step>, lag: nat, gap: int) {
    Initial(s) && Executable(s, steps) && LagAtMost(Run(s, steps), lag) ==> WritesApartBy(Run(s, steps), gap)
  }

  /** The least distance of two writes when every claim is written at most `lag` after its stamp. */
  function LeastGap(lag: nat): nat {
    if lag <= LEASE + 1 then LEASE + 1 - lag else 0
  }

  lemma GapSufficient(s: Sys, steps: seq<Step>, lag: nat, gap: int)
    requires gap <= LeastGap(lag)
    ensures GapKept(s, steps, lag, gap)
  {
    if Initial(s) && Executable(s, steps) && LagAtMost(Run(s, steps), lag) {
      var t := Run(s, steps);
      InitialLeases(s);
      RunKeepsLeases(s, steps);
      RunWritesInOrder(s, steps);
      forall slot, i | slot in t.claims && 0 <= i < |t.claims[slot]| - 1
        ensures t.claims[slot][i + 1].written - t.claims[slot][i].written >= gap
      {
        assert HistoryFaithful(t, slot);
        assert t.claims[slot][i + 1].stamp - t.claims[slot][i].stamp > LEASE;
      }
    }
  }

  lemma GapNecessary(lag: nat, gap: int) returns (s: Sys, steps: seq<Step>)
    requires gap > LeastGap(lag)
    ensures !GapKept(s, steps, lag, gap)
  {
    s, steps := LaggingRun(if lag <= LEASE + 1 then lag else LEASE + 1);
    var cs := Run(s, steps).claims[SLOT];
    assert cs[1].written - cs[0].written == LeastGap(lag);
  }

  /** The exact bound: in all runs whose claims are written at most `lag` after their stamp, be it
      the start of an insert's transaction or a reclaim's read, the writes of a slot are at least
      `gap` apart if and only if `gap` is at most 90 seconds and a microsecond less `lag` (or zero). */
  lemma WriteGapBound(lag: nat, gap: int)
    ensures (forall s, steps :: GapKept(s, steps, lag, gap)) <==> gap <= LeastGap(lag)
  {
    if gap <= LeastGap(lag) {
      forall s, steps ensures GapKept(s, steps, lag, gap) {
        GapSufficient(s, steps, lag, gap);
      }
    } else {
      var s, steps := GapNecessary(lag, gap);
    }
  }

  /** Measured by the writes instead of the stamps, claims are 90 seconds apart in every
      run whose claims lag at most `lag` if and only if no lag is allowed at all. */
  lemma WriteGapsExact(lag: nat)
    ensures (forall s, steps :: Initial(s) && Executable(s, steps) && LagAtMost(Run(s, steps), lag)
               ==> WritesApart(Run(s, steps)))
            <==> lag == 0
  {
    if lag == 0 {
      forall s, steps | Initial(s) && Executable(s, steps) && LagAtMost(Run(s, steps), lag)
        ensures WritesApart(Run(s, steps))
      {
        GapSufficient(s, steps, lag, LEASE + 1);
        assert GapKept(s, steps, lag, LEASE + 1);
      }
    } else {
      var s, steps := LaggingInsert();
    }
  }

  /* ---------- A reclaim that comes after settlement ---------- */

  /** A run in which a caller saw an expired lease, the holder then settled the row, and the
      caller is refused with 409 although the answer is stored. */
  lemma SettledButRefused() returns (s: Sys, steps: seq<Step>)
    ensures Initial(s) && Executable(s, steps)
    ensures var t := Run(s, steps);
      && SLOT in t.db.ledger && t.db.ledger[SLOT].status.Completed?
      && 1 in t.requests && SlotFor(t, 1) == SLOT && t.requests[1].phase == Rejected
  {
    s := BEGIN;
    steps := FirstClaim(s, 0);
    var more := SeesExpired(Run(s, steps), 1, LEASE + 1);
    ExtendAll(s, steps, more); steps := steps + more;
    more := SettlesFirst(Run(s, steps));
    ExtendAll(s, steps, more); steps := steps + more;
  }

  lemma SettlesFirst(s: Sys) returns (steps: seq<Step>)
    requires s.requests.Keys == {0, 1} && SlotFor(s, 1) == SLOT && s.requests[1].phase == Reclaiming(0, LEASE + 1)
    requires SlotFor(s, 0) == SLOT && s.requests[0].phase == Holding
    requires s.db.ledger == map[SLOT := Row(0, 0, Pending, 0, None, None)]
    ensures Executable(s, steps)
    ensures var t := Run(s, steps);
      && SLOT in t.db.ledger && t.db.ledger[SLOT].status.Completed?
      && 1 in t.requests && SlotFor(t, 1) == SLOT && t.requests[1].phase == Rejected
  {
    var f := Settlement(Completed, 0, 200, map[]);
    assert Targets(SLOT, s.db.ledger[SLOT], s.requests[0].tenant, s.requests[0].key, 0);
    assert SLOT in Hits(s.db, s.requests[0].tenant, s.requests[0].key, 0);
    steps := [];
    Extend(s, steps, Finalize(0, f)); steps := steps + [Finalize(0, f)];
    Extend(s, steps, TryReclaim(1)); steps := steps + [TryReclaim(1)];
  }

  /* ---------- Spend conservation ---------- */

  function CostMap(ledger: map<Slot, Row>, tenant: TenantId): map<Slot, int> {
    map slot | slot in ledger :: if slot.tenant == tenant then ledger[slot].cost else 0
  }

  function Owes(q: Request, tenant: TenantId): nat {
    if q.tenant == tenant && q.phase.Charging? then q.phase.cost else 0
  }

  function OwedMap(requests: map<RequestId, Request>, tenant: TenantId): map<RequestId, int> {
    map r | r in requests :: Owes(requests[r], tenant)
  }

  /** Cost recorded on the tenant's settled rows (a pending row records none). */
  ghost function Recorded(s: Sys, tenant: TenantId): int {
    Total(CostMap(s.db.ledger, tenant))
  }

  /** Cost of finalizes whose ledger row is settled and whose tenant update is still to run. */
  ghost function InTransit(s: Sys, tenant: TenantId): int {
    Total(OwedMap(s.requests, tenant))
  }

  ghost predicate Conserved(s0: Sys, s: Sys, tenant: TenantId)
    requires tenant in s0.db.accounts && tenant in s.db.accounts
  {
    s.db.accounts[tenant].spend + InTransit(s, tenant) == s0.db.accounts[tenant].spend + Recorded(s, tenant)
  }

  lemma RequestUpdate(requests: map<RequestId, Request>, r: RequestId, q: Request, tenant: TenantId)
    ensures Total(OwedMap(requests[r := q], tenant)) ==
            Total(OwedMap(requests, tenant)) + Owes(q, tenant)
            - (if r in requests then Owes(requests[r], tenant) else 0)
  {
    assert OwedMap(requests[r := q], tenant) == OwedMap(requests, tenant)[r := Owes(q, tenant)];
    TotalUpdate(OwedMap(requests, tenant), r, Owes(q, tenant));
  }

  lemma RowUpdate(ledger: map<Slot, Row>, slot: Slot, row: Row, tenant: TenantId)
    ensures Total(CostMap(ledger[slot := row], tenant)) ==
            Total(CostMap(ledger, tenant)) +
            (if slot.tenant == tenant then row.cost - (if slot in ledger then ledger[slot].cost else 0) else 0)
  {
    var cost := if slot.tenant == tenant then row.cost else 0;
    assert CostMap(ledger[slot := row], tenant) == CostMap(ledger, tenant)[slot := cost];
    TotalUpdate(CostMap(ledger, tenant), slot, cost);
  }

  lemma FinalizeConserves(s0: Sys, s: Sys, r: RequestId, f: Settlement, tenant: TenantId)
    requires LeaseInv(s) && Enabled(s, Finalize(r, f))
    requires tenant in s0.db.accounts && tenant in s.db.accounts && Conserved(s0, s, tenant)
    ensures tenant in Next(s, Finalize(r, f)).db.accounts && Conserved(s0, Next(s, Finalize(r, f)), tenant)
  {
    var t := Next(s, Finalize(r, f));
    RequestUpdate(s.requests, r, t.requests[r], tenant);
    if Hits(s.db, s.requests[r].tenant, s.requests[r].key, r) != {} {
      SettleOwnSlot(s, r, f);
      var slot := SlotFor(s, r);
      assert RowOwned(s, slot);
      RowUpdate(s.db.ledger, slot, t.db.ledger[slot], tenant);
    }
  }

  lemma BillConserves(s0: Sys, s: Sys, r: RequestId, period: string, tenant: TenantId)
    requires LeaseInv(s) && Enabled(s, Bill(r, period))
    requires tenant in s0.db.accounts && tenant in s.db.accounts && Conserved(s0, s, tenant)
    ensures tenant in Next(s, Bill(r, period)).db.accounts && Conserved(s0, Next(s, Bill(r, period)), tenant)
  {
    RequestUpdate(s.requests, r, Next(s, Bill(r, period)).requests[r], tenant);
    assert MemorySound(s, r);
  }

  lemma StepConserves(s0: Sys, s: Sys, step: Step, tenant: TenantId)
    requires LeaseInv(s) && Enabled(s, step)
    requires tenant in s0.db.accounts && tenant in s.db.accounts && Conserved(s0, s, tenant)
    ensures tenant in Next(s, step).db.accounts && Conserved(s0, Next(s, step), tenant)
  {
    var t := Next(s, step);
    match step
    case Tick(_) =>
    case SetCap(_, _) =>
    case Authenticate(r, _, _) =>
      RequestUpdate(s.requests, r, t.requests[r], tenant);
    case TryInsert(r, _) =>
      RequestUpdate(s.requests, r, t.requests[r], tenant);
      var slot := SlotFor(s, r);
      if slot !in s.db.ledger {
        RowUpdate(s.db.ledger, slot, t.db.ledger[slot], tenant);
      }
    case Look(r) =>
      RequestUpdate(s.requests, r, t.requests[r], tenant);
    case TryReclaim(r) =>
      RequestUpdate(s.requests, r, t.requests[r], tenant);
      var slot := SlotFor(s, r);
      if ReclaimHits(s.db, slot, s.requests[r].phase.seen) {
        RowUpdate(s.db.ledger, slot, t.db.ledger[slot], tenant);
      }
    case Finalize(r, f) => FinalizeConserves(s0, s, r, f, tenant);
    case Bill(r, period) => BillConserves(s0, s, r, period, tenant);
  }

  lemma {:induction false} RunConserves(s0: Sys, s: Sys, steps: seq<Step>, tenant: TenantId)
    requires LeaseInv(s) && Executable(s, steps)
    requires tenant in s0.db.accounts && tenant in s.db.accounts && Conserved(s0, s, tenant)
    ensures tenant in Run(s, steps).db.accounts && Conserved(s0, Run(s, steps), tenant)
    decreases |steps|
  {
    if steps != [] {
      StepKeepsLeases(s, steps[0]);
      StepConserves(s0, s, steps[0], tenant);
      RunConserves(s0, Next(s, steps[0]), steps[1..], tenant);
    }
  }

  lemma {:induction false} TotalZero<K>(keys: set<K>, m: map<K, int>)
    requires keys <= m.Keys && forall k :: k in keys ==> m[k] == 0
    ensures TotalOn(keys, m) == 0
    decreases keys
  {
    if keys != {} {
      var k :| k in keys && TotalOn(keys, m) == m[k] + TotalOn(keys - {k}, m);
      TotalZero(keys - {k}, m);
    }
  }

  /** Spend conservation: in every reachable state, whoever lost a lease or finalized
      late, the tenant's spend plus what is between the two statements of a finalize is
      the initial spend plus the cost of its ledger rows; with no finalize half done,
      as after every commit, spend is exactly initial plus recorded cost. */
  lemma SpendConservation(s: Sys, steps: seq<Step>, t: Sys, tenant: TenantId)
    requires Reaches(s, steps, t) && tenant in s.db.accounts
    ensures tenant in t.db.accounts && Conserved(s, t, tenant)
    ensures (forall r :: r in t.requests && t.requests[r].tenant == tenant ==> !t.requests[r].phase.Charging?)
            ==> t.db.accounts[tenant].spend == s.db.accounts[tenant].spend + Recorded(t, tenant)
    ensures forall slot :: slot in t.db.ledger && t.db.ledger[slot].status.Pending? ==> t.db.ledger[slot].cost == 0
  {
    InitialLeases(s);
    assert CostMap(s.db.ledger, tenant) == map[] && OwedMap(s.requests, tenant) == map[];
    RunConserves(s, s, steps, tenant);
    RunKeepsLeases(s, steps);
    assert forall slot :: slot in t.db.ledger ==> RowOwned(t, slot);
    if forall r :: r in t.requests && t.requests[r].tenant == tenant ==> !t.requests[r].phase.Charging? {
      var owed := OwedMap(t.requests, tenant);
      assert forall r :: r in owed ==> owed[r] == 0;
      TotalZero(owed.Keys, owed);
    }
  }

  /* ---------- Bounded overshoot of the spend cap ---------- */

  ghost predicate InFlight(q: Request, tenant: TenantId) {
    q.tenant == tenant &&
    (q.phase.Authenticated? || q.phase.Contending? || q.phase.Reclaiming? || q.phase.Holding? || q.phase.Charging?)
  }

  ghost function FlightSet(s: Sys, tenant: TenantId): set<RequestId> {
    set r | r in s.requests && InFlight(s.requests[r], tenant)
  }

  /** Requests in flight whose tenant snapshot, loaded at authentication, was below the cap. */
  ghost function Admitted(s: Sys, tenant: TenantId): set<RequestId> {
    set r | r in s.requests && InFlight(s.requests[r], tenant) && s.requests[r].seen.BelowCap()
  }

  /** At most `k` requests of the tenant in flight, none costing more than `m`, cap constant. */
  ghost predicate Throttled(s: Sys, steps: seq<Step>, tenant: TenantId, k: nat, m: nat)
    requires Executable(s, steps)
    decreases |steps|
  {
    && |FlightSet(s, tenant)| <= k
    && (steps != [] ==>
          && !(steps[0].SetCap? && steps[0].tenant == tenant)
          && (steps[0].Finalize? && s.requests[steps[0].request].tenant == tenant ==> steps[0].f.cost <= m)
          && Throttled(Next(s, steps[0]), steps[1..], tenant, k, m))
  }

  ghost predicate SnapshotSound(s: Sys, r: RequestId, tenant: TenantId, cap: int, m: nat)
    requires r in s.requests
  {
    var q := s.requests[r];
    q.tenant == tenant ==>
      && q.seen.cap == Some(cap)
      && (q.phase.Charging? ==> 0 < q.phase.cost <= m && q.seen.BelowCap())
  }

  ghost predicate CapInv(s: Sys, tenant: TenantId, cap: int, limit: int, m: nat) {
    && tenant in s.db.accounts
    && s.db.accounts[tenant].cap == Some(cap)
    && s.db.accounts[tenant].spend + m * |Admitted(s, tenant)| <= limit
    && forall r {:trigger SnapshotSound(s, r, tenant, cap, m)} :: r in s.requests ==>
        SnapshotSound(s, r, tenant, cap, m)
  }

  lemma Grow(m: nat, small: set<RequestId>, big: set<RequestId>)
    requires small <= big
    ensures m * |small| <= m * |big|
    ensures small != big ==> m * |small| + m <= m * |big|
  {
    var rest := big - small;
    assert big == small + rest;
    assert |big| == |small| + |rest|;
    if rest != {} {
      assert m * (|small| + 1) <= m * |big|;
    }
  }

  lemma SnapshotsKept(s: Sys, step: Step, tenant: TenantId, cap: int, m: nat, limit: int)
    requires LeaseInv(s) && Enabled(s, step) && CapInv(s, tenant, cap, limit, m)
    requires step.Finalize? && s.requests[step.request].tenant == tenant ==> step.f.cost <= m
    ensures forall r :: r in Next(s, step).requests ==> SnapshotSound(Next(s, step), r, tenant, cap, m)
  {
    var t := Next(s, step);
    forall r | r in t.requests ensures SnapshotSound(t, r, tenant, cap, m) {
      if r in s.requests {
        assert SnapshotSound(s, r, tenant, cap, m);
      }
    }
  }

  /** Only authentication can put a request in flight. */
  lemma AdmittedShrinks(s: Sys, step: Step, tenant: TenantId)
    requires LeaseInv(s) && Enabled(s, step)
    requires !(step.Authenticate? && step.tenant == tenant && s.db.accounts[tenant].BelowCap())
    ensures Admitted(Next(s, step), tenant) <= Admitted(s, tenant)
  {
    if step.Finalize? && !s.requests[step.request].phase.Holding? {
      NotHoldingNoHits(s, step.request);
    }
  }

  lemma RoomForAll(spend: int, cap: int, admitted: set<RequestId>, flight: set<RequestId>, k: nat, m: nat, limit: int)
    requires admitted <= flight && |flight| <= k && spend <= cap - 1 && cap - 1 + k * m <= limit
    ensures spend + m * |admitted| <= limit
  {
    Grow(m, admitted, flight);
    assert m * |flight| <= m * k;
  }

  lemma AuthenticateKeepsRoom(s: Sys, step: Step, tenant: TenantId, cap: int, k: nat, m: nat, limit: int)
    requires Enabled(s, step) && step.Authenticate? && step.tenant == tenant && s.db.accounts[tenant].BelowCap()
    requires |FlightSet(Next(s, step), tenant)| <= k && cap - 1 + k * m <= limit
    requires s.db.accounts[tenant].cap == Some(cap)
    ensures s.db.accounts[tenant].spend + m * |Admitted(Next(s, step), tenant)| <= limit
  {
    var t := Next(s, step);
    RoomForAll(s.db.accounts[tenant].spend, cap, Admitted(t, tenant), FlightSet(t, tenant), k, m, limit);
  }

  lemma BillKeepsRoom(s: Sys, r: RequestId, period: string, tenant: TenantId, cap: int, m: nat, limit: int)
    requires LeaseInv(s) && Enabled(s, Bill(r, period)) && s.requests[r].tenant == tenant &&
        CapInv(s, tenant, cap, limit, m)
    ensures var t := Next(s, Bill(r, period));
      tenant in t.db.accounts && t.db.accounts[tenant].spend + m * |Admitted(t, tenant)| <= limit
  {
    var t := Next(s, Bill(r, period));
    AdmittedShrinks(s, Bill(r, period), tenant);
    assert SnapshotSound(s, r, tenant, cap, m);
    assert r in Admitted(s, tenant) && r !in Admitted(t, tenant);
    Grow(m, Admitted(t, tenant), Admitted(s, tenant));
  }

  lemma StepKeepsCap(s: Sys, step: Step, tenant: TenantId, cap: int, k: nat, m: nat, limit: int)
    requires LeaseInv(s) && Enabled(s, step)
    requires !(step.SetCap? && step.tenant == tenant)
    requires step.Finalize? && s.requests[step.request].tenant == tenant ==> step.f.cost <= m
    requires |FlightSet(Next(s, step), tenant)| <= k
    requires cap - 1 + k * m <= limit
    requires CapInv(s, tenant, cap, limit, m)
    ensures CapInv(Next(s, step), tenant, cap, limit, m)
  {
    SnapshotsKept(s, step, tenant, cap, m, limit);
    if step.Authenticate? && step.tenant == tenant && s.db.accounts[tenant].BelowCap() {
      AuthenticateKeepsRoom(s, step, tenant, cap, k, m, limit);
    } else if step.Bill? && s.requests[step.request].tenant == tenant {
      BillKeepsRoom(s, step.request, step.period, tenant, cap, m, limit);
    } else {
      AdmittedShrinks(s, step, tenant);
      Grow(m, Admitted(Next(s, step), tenant), Admitted(s, tenant));
    }
  }

  lemma {:induction false} RunKeepsCap(s: Sys, steps: seq<Step>, tenant: TenantId, cap: int, k: nat, m: nat, limit: int)
    requires LeaseInv(s) && Executable(s, steps) && Throttled(s, steps, tenant, k, m)
    requires cap - 1 + k * m <= limit
    requires CapInv(s, tenant, cap, limit, m)
    ensures CapInv(Run(s, steps), tenant, cap, limit, m)
    decreases |steps|
  {
    if steps != [] {
      StepKeepsLeases(s, steps[0]);
      assert Throttled(Next(s, steps[0]), steps[1..], tenant, k, m);
      StepKeepsCap(s, steps[0], tenant, cap, k, m, limit);
      RunKeepsCap(Next(s, steps[0]), steps[1..], tenant, cap, k, m, limit);
    }
  }

  /** Bounded overshoot: the cap is checked against a stale snapshot, yet with at most
      `k` requests in flight, each costing at most `m`, spend never passes cap - 1 + k*m
      (or the initial spend, when that was already higher). */
  lemma BoundedOvershoot(s: Sys, steps: seq<Step>, t: Sys, tenant: TenantId, cap: int, k: nat, m: nat)
    requires Reaches(s, steps, t) && Throttled(s, steps, tenant, k, m)
    requires tenant in s.db.accounts && s.db.accounts[tenant].cap == Some(cap)
    ensures tenant in t.db.accounts
    ensures var initial := s.db.accounts[tenant].spend; var bound := cap - 1 + k * m;
            t.db.accounts[tenant].spend <= if initial > bound then initial else bound
  {
    var initial := s.db.accounts[tenant].spend;
    var bound := cap - 1 + k * m;
    var limit := if initial > bound then initial else bound;
    InitialLeases(s);
    assert Admitted(s, tenant) == {};
    RunKeepsCap(s, steps, tenant, cap, k, m, limit);
    assert m * |Admitted(t, tenant)| >= 0;
  }

  /* ---------- Spend alerts ---------- */

  ghost predicate CapFixed(steps: seq<Step>, tenant: TenantId) {
    forall i :: 0 <= i < |steps| && steps[i].SetCap? ==> steps[i].tenant != tenant
  }

  ghost predicate AlertsExact(s0: Sys, s: Sys, tenant: TenantId)
    requires tenant in s0.db.accounts
  {
    && tenant in s.db.accounts
    && s.db.accounts[tenant].cap == s0.db.accounts[tenant].cap
    && s0.db.accounts[tenant].spend <= s.db.accounts[tenant].spend
    && ThresholdsOf(s.db.alerts, tenant)
       == Crossed(s0.db.accounts[tenant].cap, s0.db.accounts[tenant].spend, s.db.accounts[tenant].spend)
  }

  lemma CrossedFresh(cap: Option<int>, a: int, b: int, c: int)
    ensures Ascending(Crossed(cap, b, c))
    ensures forall t :: t in Crossed(cap, b, c) ==> t !in Crossed(cap, a, b)
  {
    CrossedIsExact(cap, a, b);
    CrossedIsExact(cap, b, c);
  }

  lemma OwnChargeKeepsAlerts(s0: Sys, s: Sys, tenant: TenantId, cost: nat, period: string)
    requires tenant in s0.db.accounts && AlertsExact(s0, s, tenant)
    ensures AlertsExact(s0, s.(db := Charge(s.db, tenant, cost, period)), tenant)
  {
    var first, a := s0.db.accounts[tenant], s.db.accounts[tenant];
    CrossedFresh(a.cap, first.spend, a.spend, a.spend + cost);
    EnqueueAllAppends(s.db.alerts, tenant, Crossed(a.cap, a.spend, a.spend + cost), period, tenant);
    CrossedTelescopes(a.cap, first.spend, a.spend, a.spend + cost);
  }

  lemma OtherChargeKeepsAlerts(s0: Sys, s: Sys, who: TenantId, cost: nat, period: string, tenant: TenantId)
    requires who != tenant && tenant in s0.db.accounts && AlertsExact(s0, s, tenant)
    ensures AlertsExact(s0, s.(db := Charge(s.db, who, cost, period)), tenant)
  {
    if who in s.db.accounts {
      var a := s.db.accounts[who];
      EnqueueAllOther(s.db.alerts, who, Crossed(a.cap, a.spend, a.spend + cost), period, tenant);
    }
  }

  lemma StepKeepsAlerts(s0: Sys, s: Sys, step: Step, tenant: TenantId)
    requires Enabled(s, step)
    requires tenant in s0.db.accounts && AlertsExact(s0, s, tenant)
    requires !(step.SetCap? && step.tenant == tenant)
    ensures AlertsExact(s0, Next(s, step), tenant)
  {
    if step.Bill? {
      BillKeepsAlerts(s0, s, step.request, step.period, tenant);
    }
  }

  lemma BillKeepsAlerts(s0: Sys, s: Sys, r: RequestId, period: string, tenant: TenantId)
    requires Enabled(s, Bill(r, period))
    requires tenant in s0.db.accounts && AlertsExact(s0, s, tenant)
    ensures AlertsExact(s0, Next(s, Bill(r, period)), tenant)
  {
    var who, cost := s.requests[r].tenant, s.requests[r].phase.cost;
    if who == tenant {
      OwnChargeKeepsAlerts(s0, s, who, cost, period);
    } else {
      OtherChargeKeepsAlerts(s0, s, who, cost, period, tenant);
    }
  }

  lemma {:induction false} EnqueueAllOther(jobs: seq<AlertJob>, tenant: string, ts: seq<int>, period: string,
                                           other: string)
    requires other != tenant
    ensures ThresholdsOf(EnqueueAll(jobs, tenant, ts, period), other) == ThresholdsOf(jobs, other)
    decreases |ts|
  {
    if ts != [] {
      var job := AlertJob(tenant, ts[0], period);
      ThresholdsOfAppend(jobs, job, other);
      EnqueueAllOther(Enqueue(jobs, job), tenant, ts[1..], period, other);
    }
  }

  lemma {:induction false} RunKeepsAlerts(s0: Sys, s: Sys, steps: seq<Step>, tenant: TenantId)
    requires Executable(s, steps) && CapFixed(steps, tenant)
    requires tenant in s0.db.accounts && AlertsExact(s0, s, tenant)
    ensures AlertsExact(s0, Run(s, steps), tenant)
    decreases |steps|
  {
    if steps != [] {
      StepKeepsAlerts(s0, s, steps[0], tenant);
      RunKeepsAlerts(s0, Next(s, steps[0]), steps[1..], tenant);
    }
  }

  /** Alerts telescope: with a fixed cap, the alerts queued in any run are, in order,
      exactly the thresholds between the initial and the final spend percentage. */
  lemma AlertsTelescope(s: Sys, steps: seq<Step>, t: Sys, tenant: TenantId)
    requires Reaches(s, steps, t) && CapFixed(steps, tenant) && tenant in s.db.accounts
    ensures tenant in t.db.accounts
    ensures ThresholdsOf(t.db.alerts, tenant)
         == Crossed(s.db.accounts[tenant].cap, s.db.accounts[tenant].spend, t.db.accounts[tenant].spend)
  {
    InitialLeases(s);
    var a := s.db.accounts[tenant];
    var none := Crossed(a.cap, a.spend, a.spend);
    CrossedTelescopes(a.cap, a.spend, a.spend, a.spend);
    assert |none + none| == |none|;
    RunKeepsAlerts(s, s, steps, tenant);
  }

  lemma ChargeKeepsDistinct(db: Db, tenant: TenantId, cost: nat, period: string)
    requires Distinct(db.alerts)
    ensures Distinct(Charge(db, tenant, cost, period).alerts)
  {
    if tenant in db.accounts {
      var a := db.accounts[tenant];
      EnqueueAllStaysDistinct(db.alerts, tenant, Crossed(a.cap, a.spend, a.spend + cost), period);
    }
  }

  lemma StepKeepsDistinct(s: Sys, step: Step)
    requires Enabled(s, step) && Distinct(s.db.alerts)
    ensures Distinct(Next(s, step).db.alerts)
  {
    if step.Bill? {
      ChargeKeepsDistinct(s.db, s.requests[step.request].tenant, s.requests[step.request].phase.cost, step.period);
    }
  }

  /** The unique index: in every run, caps changing or not, at most one alert job per
      (tenant, threshold, period) is ever queued. */
  lemma {:induction false} AlertsNeverRepeat(s: Sys, steps: seq<Step>)
    requires Executable(s, steps) && Distinct(s.db.alerts)
    ensures Distinct(Run(s, steps).db.alerts)
    decreases |steps|
  {
    if steps != [] {
      StepKeepsDistinct(s, steps[0]);
      AlertsNeverRepeat(Next(s, steps[0]), steps[1..]);
    }
  }
}
