/** What one claim answers, from the row alone, and the claim as a run of the interleaved protocol. */
module ClaimAnswers {
  import opened Wrappers
  import opened Idempotency

  /** The row is pending, and was stamped at most 90 seconds before `now`. */
  ghost predicate LeaseRuns(db: Db, slot: Slot, now: int) {
    slot in db.ledger && db.ledger[slot].status.Pending? && now - db.ledger[slot].claimedAt <= 90_000_000
  }

  /** An uninterrupted claim, from the row alone: 409 if and only if a lease is running on it;
      a replay of the stored code and body if and only if it is settled; otherwise, absent or
      expired, the claimer may proceed and holds the row. Only then does anything change. */
  lemma ClaimDecided(db: Db, slot: Slot, request: RequestId, stamp: int, now: int)
    ensures var (after, answer) := ClaimAlone(db, slot, request, stamp, now);
      && (answer.Conflict409? <==> LeaseRuns(db, slot, now))
      && (answer.ReplayResponse? <==> slot in db.ledger && !db.ledger[slot].status.Pending?)
      && (answer.ReplayResponse? ==>
            && var row := db.ledger[slot];
            && answer.code == (if row.code.None? || row.code == Some(0) then 200 else row.code.value)
            && answer.body == (if row.body.None? then map[] else row.body.value))
      && (answer.Proceed? <==>
            slot in db.ledger ==> db.ledger[slot].status.Pending? && !LeaseRuns(db, slot, now))
      && after == if !answer.Proceed? then db else
           db.(ledger := db.ledger[slot :=
             if slot in db.ledger then db.ledger[slot].(holder := request, claimedAt := now)
             else Row(request, stamp, Pending, 0, None, None)])
  {
  }

  /** Where a request stands after its claim. */
  function PhaseFor(answer: ClaimResult): Phase {
    match answer
    case Proceed => Holding
    case ReplayResponse(code, body) => Replayed(code, body)
    case Conflict409 => Rejected
    case Error500 => Broken
  }

  lemma OneStep(s: Sys, step: Step)
    requires Enabled(s, step)
    ensures Executable(s, [step]) && Run(s, [step]) == Next(s, step)
  {
    assert [step][1..] == [];
    assert Executable(Next(s, step), []);
  }

  lemma OneMore(s: Sys, first: Step, rest: seq<Step>)
    requires Enabled(s, first) && Executable(Next(s, first), rest)
    ensures Executable(s, [first] + rest) && Run(s, [first] + rest) == Run(Next(s, first), rest)
  {
    assert ([first] + rest)[1..] == rest;
  }

  lemma Joined(s: Sys, a: seq<Step>, b: seq<Step>)
    requires Executable(s, a) && Executable(Run(s, a), b)
    ensures Executable(s, a + b) && Run(s, a + b) == Run(Run(s, a), b)
    decreases |a|
  {
    if a == [] {
      assert a + b == b;
    } else {
      Joined(Next(s, a[0]), a[1..], b);
      assert (a + b)[1..] == a[1..] + b;
    }
  }

  /** The answer of the interleaved statements when nothing runs between them: the insert, the
      select and the compare-and-swap leave the request where its claim's answer says, and the
      database as that claim leaves it. */
  lemma UninterruptedClaim(s: Sys, r: RequestId, stamp: int) returns (steps: seq<Step>)
    requires Enabled(s, TryInsert(r, stamp))
    ensures Executable(s, steps)
    ensures var t := Run(s, steps); var (db, answer) := ClaimAlone(s.db, SlotFor(s, r), r, stamp, s.now);
      && (answer.Proceed? ==> SlotFor(s, r) in db.ledger)
      && t.db == db && t.now == s.now
      && t.requests == Moved(s, r, PhaseFor(answer))
      && t.claims == if !answer.Proceed? then s.claims else
           Logged(s, SlotFor(s, r), Claim(r, db.ledger[SlotFor(s, r)].claimedAt, s.now))
  {
    var slot := SlotFor(s, r);
    ClaimDecided(s.db, slot, r, stamp, s.now);
    var t1 := Next(s, TryInsert(r, stamp));
    if slot !in s.db.ledger {
      OneStep(s, TryInsert(r, stamp));
      assert t1.claims[slot] != [];
      return [TryInsert(r, stamp)];
    }
    var t2 := Next(t1, Look(r));
    if t2.requests[r].phase.Reclaiming? {
      OneStep(t2, TryReclaim(r));
      OneMore(t1, Look(r), [TryReclaim(r)]);
      OneMore(s, TryInsert(r, stamp), [Look(r)] + [TryReclaim(r)]);
      return [TryInsert(r, stamp)] + ([Look(r)] + [TryReclaim(r)]);
    }
    OneStep(t1, Look(r));
    OneMore(s, TryInsert(r, stamp), [Look(r)]);
    return [TryInsert(r, stamp)] + [Look(r)];
  }

  /** The same in terms of the row: an uninterrupted request ends up rejected exactly when a lease
      is running, replaying exactly when the row is settled, and holding it otherwise. */
  lemma UninterruptedAnswers(s: Sys, r: RequestId, stamp: int) returns (steps: seq<Step>)
    requires Enabled(s, TryInsert(r, stamp))
    ensures Executable(s, steps) && r in Run(s, steps).requests
    ensures var t, slot := Run(s, steps), SlotFor(s, r); var phase := t.requests[r].phase;
      && (phase.Rejected? <==> LeaseRuns(s.db, slot, s.now))
      && (phase.Replayed? <==> slot in s.db.ledger && !s.db.ledger[slot].status.Pending?)
      && (phase.Holding? || phase.Rejected? || phase.Replayed?)
      && (phase.Holding? ==> slot in t.db.ledger && t.db.ledger[slot].holder == r)
      && (!phase.Holding? ==> t.db == s.db)
  {
    steps := UninterruptedClaim(s, r, stamp);
    ClaimDecided(s.db, SlotFor(s, r), r, stamp, s.now);
  }
}
