/** What the end of an execution decides for the rest of every run. */
module JobOutcomes {
  import opened Wrappers
  import opened Sequences
  import opened JobQueue

  /** `ticket` names the only execution of the job, and the row says so. */
  ghost predicate SoleWorker(s: Sys, id: Id, ticket: Ticket) {
    && ticket in s.flight && s.flight[ticket].id == id
    && id in s.jobs && s.jobs[id].status == Processing
    && forall t :: t in s.flight && s.flight[t].id == id ==> t == ticket
  }

  /** The powers of two, by their law. */
  lemma {:induction false} Pow2Law(a: nat, b: nat)
    ensures Pow2(0) == 1 && Pow2(1) == 2 && Pow2(a + b) == Pow2(a) * Pow2(b)
  {
    if a > 0 {
      Pow2Law(a - 1, b);
      assert Pow2(a + b) == 2 * Pow2(a - 1 + b);
    }
  }

  /** Nobody executes the job, and its row is `row`. */
  ghost predicate Idle(s: Sys, id: Id, row: Job) {
    id in s.jobs && s.jobs[id] == row && row.status != Processing && forall t :: t in s.flight ==> s.flight[t].id != id
  }

  ghost predicate Untaken(more: seq<Event>, id: Id) {
    forall i :: 0 <= i < |more| ==> !Takes1(more[i], id)
  }

  lemma {:induction false} IdleStays(es: seq<Event>, more: seq<Event>, id: Id, row: Job)
    requires Legal(es) && Legal(es + more) && Idle(After(es), id, row) && Untaken(more, id)
    ensures Idle(After(es + more), id, row)
    decreases |more|
  {
    if more == [] {
      assert es + more == es;
    } else {
      assert Front(es + more) == es + Front(more) && Last(es + more) == Last(more);
      assert !Takes1(Last(more), id);
      IdleStays(es, Front(more), id, row);
    }
  }

  lemma {:induction false} DoneUntaken(es: seq<Event>, more: seq<Event>, id: Id, row: Job)
    requires Legal(es) && Legal(es + more) && Idle(After(es), id, row) && row.status != Pending
    ensures Untaken(more, id) && Idle(After(es + more), id, row)
    decreases |more|
  {
    if more == [] {
      assert es + more == es;
    } else {
      assert Front(es + more) == es + Front(more) && Last(es + more) == Last(more);
      DoneUntaken(es, Front(more), id, row);
    }
  }

  /** When the only worker of a job ends, the row is completed after a success and a dead letter
      after a permanent error or the last allowed attempt; then it never changes again and no
      later event of any run takes it. */
  lemma EndedForGood(es: seq<Event>, e: Event, more: seq<Event>)
    requires Legal(es) && e.End? && SoleWorker(After(es), e.id, e.ticket) && Enabled(After(es), e)
    requires e.outcome.RetryableError? ==> e.attempts >= After(es).jobs[e.id].maxAttempts
    requires Legal(es + [e] + more)
    ensures Legal(es + [e])
    ensures var row := After(es).jobs[e.id].(status := if e.outcome.Success? then Completed else DeadLetter);
      && Idle(After(es + [e]), e.id, row)
      && Idle(After(es + [e] + more), e.id, row)
      && Untaken(more, e.id)
  {
    Extend(es, e);
    DoneUntaken(es + [e], more, e.id, After(es + [e]).jobs[e.id]);
  }

  /** When the only worker of a job fails its attempt `k` in a retryable way, and more are allowed,
      the job waits: in every continuation in which nobody has taken it, it can be taken at exactly
      the times from `2^k` minutes after the failure on. */
  lemma TakeableAfterBackoff(es: seq<Event>, e: Event, more: seq<Event>, ticket: Ticket, now: int, at: int)
    requires Legal(es) && e.End? && SoleWorker(After(es), e.id, e.ticket) && Enabled(After(es), e)
    requires e.outcome.RetryableError? && e.attempts < After(es).jobs[e.id].maxAttempts
    requires Legal(es + [e] + more) && Untaken(more, e.id)
    ensures Legal(es + [e]) && e.attempts == Takes(es, e.id)
    ensures var due := e.at + Pow2(e.attempts) * 60_000_000; var t := After(es + [e] + more);
      && Idle(t, e.id, After(es).jobs[e.id].(status := Pending, scheduledAt := due))
      && (Enabled(t, Take(ticket, e.id, now, at)) <==>
            ticket !in t.flight && due <= now <= at && t.now <= at)
  {
    Extend(es, e);
    RowBounded(es, e.id);
    IdleStays(es + [e], more, e.id, After(es + [e]).jobs[e.id]);
  }
}
