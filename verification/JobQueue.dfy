/**
 The background job queue: a table of jobs, workers that take the earliest due one, retries
 with exponential backoff, and a sweep that puts stuck jobs back.
 */
module JobQueue {
  import opened Wrappers
  import opened Sequences

  type Id = nat

  /** Names one execution of a job by one worker. */
  type Ticket = nat

  datatype Status = Pending | Processing | Completed | DeadLetter

  /** Times are in microseconds. */
  datatype Job = Job(status: Status, attempts: nat, maxAttempts: int, scheduledAt: int, startedAt: Option<int>) {
    predicate Terminal() {
      status.Completed? || status.DeadLetter?
    }

    /** The number of executions a job gets without recoveries: even a limit of zero allows one. */
    function Allowance(): nat {
      if maxAttempts < 1 then 1 else maxAttempts
    }
  }

  type Table = map<Id, Job>

  datatype Outcome = Success | RetryableError | PermanentError

  const MINUTE := 60_000_000
  const STUCK := 15 * MINUTE

  function Pow2(k: nat): (p: nat)
    ensures p >= 1
  {
    if k == 0 then 1 else 2 * Pow2(k - 1)
  }

  function Backoff(attempts: nat): nat {
    Pow2(attempts) * MINUTE
  }

  /* ---------- One row ---------- */

  predicate Due(jobs: Table, id: Id, now: int) {
    id in jobs && jobs[id].status == Pending && jobs[id].scheduledAt <= now
  }

  function Started(j: Job, at: int): Job {
    j.(status := Processing, startedAt := Some(at), attempts := j.attempts + 1)
  }

  predicate GivesUp(j: Job, permanent: bool) {
    permanent || j.attempts >= j.maxAttempts
  }

  function Ended(j: Job, outcome: Outcome, at: int): Job {
    if outcome.Success? then j.(status := Completed)
    else if GivesUp(j, outcome.PermanentError?) then j.(status := DeadLetter)
    else j.(status := Pending, scheduledAt := at + Backoff(j.attempts))
  }

  predicate StuckSince(j: Job, cutoff: int) {
    j.status == Processing && j.startedAt.Some? && j.startedAt.value < cutoff
  }

  function StuckIds(jobs: Table, cutoff: int): set<Id> {
    set id | id in jobs && StuckSince(jobs[id], cutoff)
  }

  function Swept(jobs: Table, cutoff: int): Table {
    map id | id in jobs :: if StuckSince(jobs[id], cutoff) then jobs[id].(status := Pending) else jobs[id]
  }

  /* ---------- The worker ---------- */

  lemma {:induction false} EarliestExists(jobs: Table, ids: set<Id>)
    requires ids != {} && forall id :: id in ids ==> id in jobs
    ensures exists first :: first in ids && forall id :: id in ids ==> jobs[first].scheduledAt <= jobs[id].scheduledAt
    decreases |ids|
  {
    var any :| any in ids;
    var rest := ids - {any};
    if rest == {} {
      assert forall id :: id in ids ==> id == any || id in rest;
      assert any in ids && forall id :: id in ids ==> jobs[any].scheduledAt <= jobs[id].scheduledAt;
    } else {
      EarliestExists(jobs, rest);
      var first :| first in rest && forall id :: id in rest ==> jobs[first].scheduledAt <= jobs[id].scheduledAt;
      var best := if jobs[any].scheduledAt < jobs[first].scheduledAt then any else first;
      assert forall id :: id in ids ==> id == any || id in rest;
      assert best in ids && forall id :: id in ids ==> jobs[best].scheduledAt <= jobs[id].scheduledAt;
    }
  }

  class WorkerLoop {
    var jobs: Table

    constructor (jobs: Table)
      ensures this.jobs == jobs
    {
      this.jobs := jobs;
    }

    /** Take the earliest due job nobody has locked; `now` is read before the statement is sent,
        `at` when the row comes back. */
    method Dequeue(locked: set<Id>, now: int, at: int) returns (taken: Option<Id>)
      modifies this
      ensures match taken
        case None => jobs == old(jobs) && forall id :: Due(jobs, id, now) ==> id in locked
        case Some(id) =>
          && Due(old(jobs), id, now) && id !in locked
          && (forall other :: Due(old(jobs), other, now) && other !in locked
                ==> old(jobs)[id].scheduledAt <= old(jobs)[other].scheduledAt)
          && jobs == old(jobs)[id := Started(old(jobs)[id], at)]
    {
      var candidates := set id | id in jobs && Due(jobs, id, now) && id !in locked;
      if candidates == {} {
        assert forall id :: Due(jobs, id, now) && id !in locked ==> id in candidates;
        return None;
      }
      EarliestExists(jobs, candidates);
      var id :| id in candidates && forall other :: other in candidates ==>
          jobs[id].scheduledAt <= jobs[other].scheduledAt;
      assert forall other :: Due(jobs, other, now) && other !in locked ==> other in candidates;
      jobs := jobs[id := Started(jobs[id], at)];
      return Some(id);
    }

    method CompleteJob(id: Id)
      modifies this
      ensures jobs == if id in old(jobs) then old(jobs)[id := Ended(old(jobs)[id], Success, 0)] else old(jobs)
    {
      if id in jobs {
        jobs := jobs[id := jobs[id].(status := Completed)];
      }
    }

    method FailJob(id: Id, permanent: bool, at: int)
      modifies this
      ensures jobs ==
        if id in old(jobs)
        then old(jobs)[id := Ended(old(jobs)[id], if permanent then PermanentError else RetryableError, at)]
        else old(jobs)
    {
      if id !in jobs {
        return;
      }
      var job := jobs[id];
      if permanent || job.attempts >= job.maxAttempts {
        job := job.(status := DeadLetter);
      } else {
        job := job.(status := Pending);
        var delay := Pow2(job.attempts);
        job := job.(scheduledAt := at + delay * MINUTE);
      }
      jobs := jobs[id := job];
    }

    /** What follows a handler that ended with `outcome`. */
    method ProcessJob(id: Id, outcome: Outcome, at: int)
      modifies this
      ensures jobs == if id in old(jobs) then old(jobs)[id := Ended(old(jobs)[id], outcome, at)] else old(jobs)
    {
      match outcome {
        case Success => CompleteJob(id);
        case RetryableError => FailJob(id, false, at);
        case PermanentError => FailJob(id, true, at);
      }
    }

    method RecoverStuckJobs(now: int) returns (recovered: set<Id>)
      modifies this
      ensures jobs.Keys == old(jobs).Keys
      ensures recovered == StuckIds(old(jobs), now - STUCK)
      ensures forall id :: id in recovered <==>
        && id in old(jobs) && old(jobs)[id].status == Processing
        && old(jobs)[id].startedAt.Some? && old(jobs)[id].startedAt.value < now - 900_000_000
      ensures forall id :: id in jobs ==>
        jobs[id] == if id in recovered then old(jobs)[id].(status := Pending) else old(jobs)[id]
    {
      var cutoff := now - STUCK;
      recovered := StuckIds(jobs, cutoff);
      jobs := Swept(jobs, cutoff);
    }
  }

  /* ---------- Every interleaving ---------- */

  /** One committed transaction, or a worker that died. The clock reading `at` is the time of
      the commit; `now` and `cutoff` were computed earlier. */
  datatype Event =
    | Enqueue(id: Id, maxAttempts: int, at: int)
    | Take(ticket: Ticket, id: Id, now: int, at: int)
    | End(ticket: Ticket, id: Id, attempts: nat, outcome: Outcome, at: int)
    | Abandon(ticket: Ticket)
    | Sweep(cutoff: int, recovered: set<Id>, at: int)

  datatype Hold = Hold(id: Id, since: int)

  datatype Sys = Sys(jobs: Table, flight: map<Ticket, Hold>, now: int)

  /** Which event can happen next. Tickets are fresh, and the clock does not run backwards.
      Nothing ties the end of an execution to the row still being held: a worker whose job
      was recovered does not know. */
  predicate Enabled(s: Sys, e: Event) {
    match e
    case Enqueue(id, _, at) => id !in s.jobs && s.now <= at
    case Take(ticket, id, now, at) => ticket !in s.flight && Due(s.jobs, id, now) && now <= at && s.now <= at
    case End(ticket, id, attempts, _, at) =>
      && ticket in s.flight && s.flight[ticket].id == id
      && id in s.jobs && s.jobs[id].attempts == attempts && s.now <= at
    case Abandon(ticket) => ticket in s.flight
    case Sweep(cutoff, recovered, at) =>
      recovered == StuckIds(s.jobs, cutoff) && cutoff <= at - STUCK && s.now <= at
  }

  function Apply(s: Sys, e: Event): Sys
    requires Enabled(s, e)
  {
    match e
    case Enqueue(id, maxAttempts, at) =>
      Sys(s.jobs[id := Job(Pending, 0, maxAttempts, at, None)], s.flight, at)
    case Take(ticket, id, _, at) =>
      Sys(s.jobs[id := Started(s.jobs[id], at)], s.flight[ticket := Hold(id, at)], at)
    case End(ticket, id, _, outcome, at) =>
      Sys(s.jobs[id := Ended(s.jobs[id], outcome, at)], s.flight - {ticket}, at)
    case Abandon(ticket) => s.(flight := s.flight - {ticket})
    case Sweep(cutoff, _, at) => Sys(Swept(s.jobs, cutoff), s.flight, at)
  }

  /** A run is its events, from an empty table. */
  predicate Legal(es: seq<Event>)
    decreases |es|, 0
  {
    es != [] ==> Legal(Front(es)) && Enabled(After(Front(es)), Last(es))
  }

  function After(es: seq<Event>): Sys
    requires Legal(es)
    decreases |es|, 1
  {
    if es == [] then Sys(map[], map[], 0) else Apply(After(Front(es)), Last(es))
  }

  predicate Takes1(e: Event, id: Id) {
    e.Take? && e.id == id
  }

  predicate Recovers1(e: Event, id: Id) {
    e.Sweep? && id in e.recovered
  }

  /** How often a job was dequeued. */
  function Takes(es: seq<Event>, id: Id): nat {
    if es == [] then 0 else Takes(Front(es), id) + (if Takes1(Last(es), id) then 1 else 0)
  }

  /** How often a job was recovered as stuck. */
  function Recoveries(es: seq<Event>, id: Id): nat {
    if es == [] then 0 else Recoveries(Front(es), id) + (if Recovers1(Last(es), id) then 1 else 0)
  }

  lemma {:induction false} LegalPrefix(es: seq<Event>, k: nat)
    requires Legal(es) && k <= |es|
    ensures Legal(es[..k])
  {
    if k == |es| {
      assert es[..k] == es;
    } else {
      LegalPrefix(Front(es), k);
      assert Front(es)[..k] == es[..k];
    }
  }

  lemma PrefixStep(es: seq<Event>, k: nat)
    requires Legal(es) && k < |es|
    ensures Legal(es[..k]) && Legal(es[..k + 1])
    ensures Enabled(After(es[..k]), es[k]) && After(es[..k + 1]) == Apply(After(es[..k]), es[k])
    ensures forall id ::
        Recoveries(es[..k + 1], id) == Recoveries(es[..k], id) + (if Recovers1(es[k], id) then 1 else 0)
  {
    LegalPrefix(es, k + 1);
    assert Front(es[..k + 1]) == es[..k] && Last(es[..k + 1]) == es[k];
  }

  /* ---------- Attempts ---------- */

  /** What holds of one row whatever the workers do. */
  ghost predicate Bounded(j: Job, takes: nat, recoveries: nat) {
    && j.attempts == takes
    && takes <= j.Allowance() + recoveries
    && (j.status == Pending ==> takes <= j.Allowance() - 1 + recoveries)
  }

  lemma {:induction false} RowBounded(es: seq<Event>, id: Id)
    requires Legal(es)
    ensures id in After(es).jobs ==> Bounded(After(es).jobs[id], Takes(es, id), Recoveries(es, id))
    ensures id !in After(es).jobs ==> Takes(es, id) == 0
  {
    if es != [] {
      RowBounded(Front(es), id);
    }
  }

  /** In every interleaving, stale workers included, a job is dequeued at most once per allowed
      attempt and once per recovery, and one that waits has at least one dequeue left. */
  lemma AttemptBound(es: seq<Event>, id: Id)
    requires Legal(es) && id in After(es).jobs
    ensures var job := After(es).jobs[id];
      && job.attempts == Takes(es, id) <= job.Allowance() + Recoveries(es, id)
      && (job.status == Pending ==> Takes(es, id) < job.Allowance() + Recoveries(es, id))
  {
    RowBounded(es, id);
  }

  /* ---------- Backoff ---------- */

  lemma {:induction false} BackoffGrows(j: nat, k: nat)
    requires j <= k
    ensures Backoff(j) <= Backoff(k)
  {
    if j < k {
      BackoffGrows(j, k - 1);
    }
  }

  /** The event put the job back to wait out its backoff. */
  ghost predicate Requeues(s: Sys, e: Event) {
    Enabled(s, e) && e.End? && e.outcome.RetryableError? && s.jobs[e.id].attempts < s.jobs[e.id].maxAttempts
  }

  /** The row was already failed with `attempts` attempts at `failedAt`. */
  ghost predicate WaitsFrom(s: Sys, id: Id, attempts: nat, failedAt: int) {
    && id in s.jobs && s.now >= failedAt && s.jobs[id].attempts >= attempts
    && s.jobs[id].scheduledAt >= failedAt + Backoff(attempts)
  }

  lemma WaitStep(s: Sys, e: Event, id: Id, attempts: nat, failedAt: int)
    requires Enabled(s, e) && WaitsFrom(s, id, attempts, failedAt)
    ensures WaitsFrom(Apply(s, e), id, attempts, failedAt)
    ensures Takes1(e, id) ==> e.at >= failedAt + Backoff(attempts)
  {
    if e.End? && e.id == id {
      BackoffGrows(attempts, s.jobs[id].attempts);
    }
  }

  lemma {:induction false} WaitHolds(es: seq<Event>, i: nat, k: nat)
    requires Legal(es) && i < k <= |es|
    requires Legal(es[..i]) && Requeues(After(es[..i]), es[i])
    ensures Legal(es[..k]) && WaitsFrom(After(es[..k]), es[i].id, es[i].attempts, es[i].at)
  {
    PrefixStep(es, k - 1);
    if i < k - 1 {
      WaitHolds(es, i, k - 1);
      WaitStep(After(es[..k - 1]), es[k - 1], es[i].id, es[i].attempts, es[i].at);
    }
  }

  /** In every interleaving, a job that failed its attempt `k` and was put back is not dequeued
      within `2^k` minutes of that failure, whoever else fails, completes or recovers it meanwhile. */
  lemma BackoffRespected(es: seq<Event>, i: nat, j: nat)
    requires Legal(es) && i < j < |es|
    requires Legal(es[..i]) && Requeues(After(es[..i]), es[i])
    requires Takes1(es[j], es[i].id)
    ensures es[j].at >= es[i].at + Pow2(es[i].attempts) * MINUTE
    ensures Legal(es[..i]) && es[i].attempts == Takes(es[..i], es[i].id)
  {
    WaitHolds(es, i, j);
    PrefixStep(es, j);
    WaitStep(After(es[..j]), es[j], es[i].id, es[i].attempts, es[i].at);
    PrefixStep(es, i);
    RowBounded(es[..i], es[i].id);
  }

  /* ---------- Without recoveries ---------- */

  /** At most one worker executes the job, and only while the row says so. */
  ghost predicate OneHolder(s: Sys, id: Id) {
    && (forall t :: t in s.flight && s.flight[t].id == id ==>
          id in s.jobs && s.jobs[id].status == Processing && s.jobs[id].startedAt == Some(s.flight[t].since))
    && (forall t, u :: t in s.flight && u in s.flight && s.flight[t].id == id && s.flight[u].id == id ==> t == u)
  }

  lemma HolderStep(s: Sys, e: Event, id: Id)
    requires Enabled(s, e) && OneHolder(s, id) && !Recovers1(e, id)
    ensures OneHolder(Apply(s, e), id)
    ensures id in s.jobs && s.jobs[id].Terminal() ==> Apply(s, e).jobs[id] == s.jobs[id]
  {
  }

  lemma {:induction false} NeverRecoveredOneHolder(es: seq<Event>, id: Id)
    requires Legal(es) && Recoveries(es, id) == 0
    ensures OneHolder(After(es), id)
  {
    if es != [] {
      NeverRecoveredOneHolder(Front(es), id);
      HolderStep(After(Front(es)), Last(es), id);
    }
  }

  /** For a job that was never recovered, a terminal row never changes again. */
  lemma {:induction false} TerminalIsFinal(es: seq<Event>, k: nat, id: Id)
    requires Legal(es) && k <= |es| && Recoveries(es, id) == 0
    requires Legal(es[..k]) && id in After(es[..k]).jobs && After(es[..k]).jobs[id].Terminal()
    ensures id in After(es).jobs && After(es).jobs[id] == After(es[..k]).jobs[id]
  {
    if k == |es| {
      assert es[..k] == es;
    } else {
      assert Front(es)[..k] == es[..k];
      TerminalIsFinal(Front(es), k, id);
      NeverRecoveredOneHolder(Front(es), id);
      HolderStep(After(Front(es)), Last(es), id);
    }
  }

  /** A job that was never recovered is dequeued at most its allowance, and once it has been,
      the row is terminal or its last execution is still running or was abandoned. */
  lemma AllowanceEnds(es: seq<Event>, id: Id)
    requires Legal(es) && id in After(es).jobs && Recoveries(es, id) == 0
    ensures var job := After(es).jobs[id];
      && Takes(es, id) <= job.Allowance()
      && (Takes(es, id) == job.Allowance() ==> job.Terminal() || job.status == Processing)
  {
    AttemptBound(es, id);
  }

  /* ---------- When executions are short ---------- */

  /** Every execution of the job in flight began at most `d` ago. */
  ghost predicate Within(s: Sys, id: Id, d: int) {
    forall t :: t in s.flight && s.flight[t].id == id ==> s.now - s.flight[t].since <= d
  }

  /** That holds in every state of the run. Workers may die; then nothing is in flight for them. */
  ghost predicate Timely(es: seq<Event>, id: Id, d: int)
    requires Legal(es)
    decreases |es|
  {
    Within(After(es), id, d) && (es != [] ==> Timely(Front(es), id, d))
  }

  /** In every run in which no execution of the job gets older than fifteen minutes, crashes and
      recoveries included, it has at most one worker, and only while its row is processing. */
  lemma {:induction false} ShortRunsOneHolder(es: seq<Event>, id: Id)
    requires Legal(es) && Timely(es, id, STUCK)
    ensures OneHolder(After(es), id)
  {
    if es != [] {
      ShortRunsOneHolder(Front(es), id);
    }
  }

  /** The row is terminal after `k` events and still the same at the end of the run. */
  ghost predicate Final(es: seq<Event>, k: nat, id: Id)
    requires Legal(es) && k <= |es|
  {
    Legal(es[..k]) && id in After(es[..k]).jobs && After(es[..k]).jobs[id].Terminal()
    ==> id in After(es).jobs && After(es).jobs[id] == After(es[..k]).jobs[id]
  }

  /** In such a run `completed` and `dead_letter` are final. */
  lemma {:induction false} ShortRunsFinal(es: seq<Event>, k: nat, id: Id)
    requires Legal(es) && k <= |es| && Timely(es, id, STUCK)
    ensures Final(es, k, id)
  {
    if k == |es| {
      assert es[..k] == es;
    } else {
      assert Front(es)[..k] == es[..k];
      ShortRunsFinal(Front(es), k, id);
      ShortRunsOneHolder(Front(es), id);
    }
  }

  lemma {:induction false} TimelyWeaker(es: seq<Event>, id: Id, d: int, e: int)
    requires Legal(es) && Timely(es, id, d) && d <= e
    ensures Timely(es, id, e)
  {
    if es != [] {
      TimelyWeaker(Front(es), id, d, e);
    }
  }

  ghost predicate AlwaysFinal(es: seq<Event>, k: nat, id: Id, d: int) {
    k <= |es| && Legal(es) && Timely(es, id, d) ==> Final(es, k, id)
  }

  /** The exact condition: a job's terminal row is final in all runs whose executions of that job
      are at most `d` old if and only if `d` is at most the stuck limit. */
  lemma FinalityExact(d: int)
    ensures (forall es, k: nat, id: Id :: AlwaysFinal(es, k, id, d)) <==> d <= STUCK
  {
    if d <= STUCK {
      forall es, k: nat, id: Id ensures AlwaysFinal(es, k, id, d) {
        if k <= |es| && Legal(es) && Timely(es, id, d) {
          TimelyWeaker(es, id, d, STUCK);
          ShortRunsFinal(es, k, id);
        }
      }
    } else {
      var es := CompletedIsNotFinal();
      TimelyWeaker(es, 0, STUCK + 1, d);
      assert !Final(es, 5, 0);
      assert !AlwaysFinal(es, 5, 0, d);
    }
  }

  /* ---------- When no worker dies either ---------- */

  /** No worker died while executing the job. */
  ghost predicate NoneDies(es: seq<Event>, id: Id)
    requires Legal(es)
    decreases |es|
  {
    es != [] ==> NoneDies(Front(es), id) && !Abandons(After(Front(es)), Last(es), id)
  }

  ghost predicate Abandons(s: Sys, e: Event, id: Id) {
    e.Abandon? && e.ticket in s.flight && s.flight[e.ticket].id == id
  }

  /** Every row in execution has its worker. */
  ghost predicate Held(s: Sys, id: Id) {
    id in s.jobs && s.jobs[id].status == Processing ==>
      exists t :: t in s.flight && s.flight[t].id == id && s.jobs[id].startedAt == Some(s.flight[t].since)
  }

  lemma HeldStep(s: Sys, e: Event, id: Id)
    requires Enabled(s, e) && Held(s, id) && OneHolder(s, id) && !Abandons(s, e, id)
    requires Within(Apply(s, e), id, STUCK)
    ensures !Recovers1(e, id) && Held(Apply(s, e), id)
  {
    var after := Apply(s, e);
    if id in s.jobs && s.jobs[id].status == Processing {
      var t :| t in s.flight && s.flight[t].id == id && s.jobs[id].startedAt == Some(s.flight[t].since);
      match e
      case End(u, _, _, _, _) => if u != t { assert t in after.flight && after.flight[t] == s.flight[t]; }
      case Abandon(u) => assert u != t && t in after.flight && after.flight[t] == s.flight[t];
      case _ => assert t in after.flight && after.flight[t] == s.flight[t];
    } else if Takes1(e, id) {
      assert after.flight[e.ticket] == Hold(id, e.at);
    }
  }

  lemma {:induction false} TimelyHeld(es: seq<Event>, id: Id)
    requires Legal(es) && Timely(es, id, STUCK) && NoneDies(es, id)
    ensures Recoveries(es, id) == 0 && Held(After(es), id)
  {
    if es != [] {
      TimelyHeld(Front(es), id);
      ShortRunsOneHolder(Front(es), id);
      HeldStep(After(Front(es)), Last(es), id);
    }
  }

  /** When every handler of a job ends within the stuck limit and no worker dies in it, no sweep
      changes its row, the row in execution has exactly one worker, and once it used its
      allowance and is not being executed it is terminal for good. */
  lemma TimelyRuns(es: seq<Event>, id: Id)
    requires Legal(es) && Timely(es, id, STUCK) && NoneDies(es, id) && id in After(es).jobs
    ensures Recoveries(es, id) == 0 && OneHolder(After(es), id) && Held(After(es), id)
    ensures Takes(es, id) <= After(es).jobs[id].Allowance()
    ensures Takes(es, id) == After(es).jobs[id].Allowance() &&
        (forall t :: t in After(es).flight ==> After(es).flight[t].id != id)
      ==> After(es).jobs[id].Terminal()
  {
    TimelyHeld(es, id);
    ShortRunsOneHolder(es, id);
    AllowanceEnds(es, id);
  }

  /* ---------- A worker that outlives the limit ---------- */

  lemma Extend(es: seq<Event>, e: Event)
    requires Legal(es) && Enabled(After(es), e)
    ensures Legal(es + [e]) && After(es + [e]) == Apply(After(es), e)
    ensures forall id :: Takes(es + [e], id) == Takes(es, id) + (if Takes1(e, id) then 1 else 0)
    ensures forall id :: Recoveries(es + [e], id) == Recoveries(es, id) + (if Recovers1(e, id) then 1 else 0)
  {
    assert Front(es + [e]) == es && Last(es + [e]) == e;
  }

  /** The job waits after `k` retryable failures and no recovery. */
  lemma {:induction false} FailedRun(limit: int, k: nat) returns (es: seq<Event>)
    requires k < limit
    ensures Legal(es) && After(es).flight == map[]
    ensures 0 in After(es).jobs &&
        After(es).jobs[0].(scheduledAt := 0, startedAt := None) == Job(Pending, k, limit, 0, None)
    ensures Takes(es, 0) == k && Recoveries(es, 0) == 0
  {
    if k == 0 {
      Extend([], Enqueue(0, limit, 0));
      es := [] + [Enqueue(0, limit, 0)];
    } else {
      var before := FailedRun(limit, k - 1);
      var s := After(before);
      var at := if s.now < s.jobs[0].scheduledAt then s.jobs[0].scheduledAt else s.now;
      var take := Take(0, 0, at, at);
      Extend(before, take);
      var end := End(0, 0, k, RetryableError, at);
      Extend(before + [take], end);
      es := before + [take] + [end];
    }
  }

  /** The attempt bound is reached: for every limit and every number of recoveries there is a
      run with exactly that many dequeues. */
  lemma {:induction false} AttemptBoundReached(limit: int, recoveries: nat) returns (es: seq<Event>)
    requires limit >= 1
    ensures Legal(es) && 0 in After(es).jobs && After(es).jobs[0].maxAttempts == limit
    ensures After(es).jobs[0].status == Processing
    ensures Takes(es, 0) == After(es).jobs[0].Allowance() + recoveries && Recoveries(es, 0) == recoveries
    ensures forall t :: t in After(es).flight ==> t <= recoveries
  {
    if recoveries == 0 {
      var before := FailedRun(limit, limit - 1);
      es := TakeNext(before, 0);
    } else {
      var before := AttemptBoundReached(limit, recoveries - 1);
      RowStarted(before, 0);
      var s := After(before);
      var at := s.now + STUCK + 1;
      var sweep := Sweep(s.now + 1, StuckIds(s.jobs, s.now + 1), at);
      Extend(before, sweep);
      es := TakeNext(before + [sweep], recoveries);
    }
  }

  lemma TakeNext(before: seq<Event>, ticket: Ticket) returns (es: seq<Event>)
    requires Legal(before) && ticket !in After(before).flight
    requires 0 in After(before).jobs && After(before).jobs[0].status == Pending
    ensures Legal(es) && 0 in After(es).jobs && After(es).jobs[0].maxAttempts == After(before).jobs[0].maxAttempts
    ensures After(es).jobs[0].status == Processing
    ensures After(es).jobs[0].attempts == After(before).jobs[0].attempts + 1
    ensures Takes(es, 0) == Takes(before, 0) + 1 && Recoveries(es, 0) == Recoveries(before, 0)
    ensures After(es).flight.Keys == After(before).flight.Keys + {ticket}
  {
    var s := After(before);
    var at := if s.now < s.jobs[0].scheduledAt then s.jobs[0].scheduledAt else s.now;
    Extend(before, Take(ticket, 0, at, at));
    es := before + [Take(ticket, 0, at, at)];
  }

  lemma {:induction false} RowStarted(es: seq<Event>, id: Id)
    requires Legal(es) && id in After(es).jobs && After(es).jobs[id].status == Processing
    ensures After(es).jobs[id].startedAt.Some? && After(es).jobs[id].startedAt.value <= After(es).now
  {
    var before := After(Front(es));
    if id in before.jobs && before.jobs[id].status == Processing {
      RowStarted(Front(es), id);
    }
  }

  lemma TimelyExtend(es: seq<Event>, e: Event, id: Id, d: int)
    requires Legal(es) && Enabled(After(es), e) && Timely(es, id, d) && Within(Apply(After(es), e), id, d)
    ensures Legal(es + [e]) && After(es + [e]) == Apply(After(es), e) && Timely(es + [e], id, d)
    ensures forall x :: Recoveries(es + [e], x) == Recoveries(es, x) + (if Recovers1(e, x) then 1 else 0)
  {
    Extend(es, e);
    assert Front(es + [e]) == es;
  }

  /** With a worker just past the limit, `completed` is not final: the job is recovered and
      completed by a second worker, then failed by the first, and waits to be executed again. */
  lemma CompletedIsNotFinal() returns (es: seq<Event>)
    ensures Legal(es) && |es| == 6 && Legal(es[..5]) && 0 in After(es[..5]).jobs && 0 in After(es).jobs
    ensures After(es[..5]).jobs[0].status == Completed
    ensures After(es).jobs[0].status == Pending
    ensures Recoveries(es, 0) == 1 && Timely(es, 0, STUCK + 1)
  {
    var d := STUCK + 1;
    var taken := RecoveredOnce();
    var second := Take(1, 0, d, d);
    TimelyExtend(taken, second, 0, d);
    var done := End(1, 0, 2, Success, d);
    TimelyExtend(taken + [second], done, 0, d);
    var late := End(0, 0, 2, RetryableError, d);
    var before := taken + [second] + [done];
    TimelyExtend(before, late, 0, d);
    es := before + [late];
    assert es[..5] == before;
  }

  lemma RecoveredOnce() returns (es: seq<Event>)
    ensures Legal(es) && |es| == 3 && Timely(es, 0, STUCK + 1) && Recoveries(es, 0) == 1
    ensures After(es) == Sys(map[0 := Job(Pending, 1, 3, 0, Some(0))], map[0 := Hold(0, 0)], STUCK + 1)
  {
    var d := STUCK + 1;
    var enqueue, take := Enqueue(0, 3, 0), Take(0, 0, 0, 0);
    TimelyExtend([], enqueue, 0, d);
    TimelyExtend([enqueue], take, 0, d);
    var sweep := Sweep(1, {0}, d);
    assert StuckIds(After([enqueue] + [take]).jobs, 1) == {0};
    TimelyExtend([enqueue] + [take], sweep, 0, d);
    es := [enqueue] + [take] + [sweep];
  }

  /* ---------- What can still happen to a terminal row ---------- */

  /** Nobody executes the job, and its row is terminal. */
  ghost predicate AtRest(s: Sys, id: Id) {
    id in s.jobs && s.jobs[id].Terminal() && forall t :: t in s.flight ==> s.flight[t].id != id
  }

  lemma {:induction false} RestStays(es: seq<Event>, more: seq<Event>, id: Id)
    requires Legal(es) && AtRest(After(es), id) && Legal(es + more)
    ensures AtRest(After(es + more), id) && After(es + more).jobs[id] == After(es).jobs[id]
    decreases |more|
  {
    if more == [] {
      assert es + more == es;
    } else {
      assert Front(es + more) == es + Front(more) && Last(es + more) == Last(more);
      RestStays(es, Front(more), id);
    }
  }

  /** Some continuation of the run changes the row. */
  ghost predicate Changes(es: seq<Event>, more: seq<Event>, id: Id)
    requires Legal(es) && id in After(es).jobs
  {
    Legal(es + more) && !(id in After(es + more).jobs && After(es + more).jobs[id] == After(es).jobs[id])
  }

  /** A terminal row is final for the whole rest of every run if and only if no worker has an
      execution of the job in flight. */
  lemma TerminalMayChangeExactly(es: seq<Event>, id: Id)
    requires Legal(es) && id in After(es).jobs && After(es).jobs[id].Terminal()
    ensures (exists more :: Changes(es, more, id))
        <==> exists t :: t in After(es).flight && After(es).flight[t].id == id
  {
    var s := After(es);
    if t :| t in s.flight && s.flight[t].id == id {
      var outcome := if s.jobs[id].status.Completed? then RetryableError else Success;
      var e := End(t, id, s.jobs[id].attempts, outcome, s.now);
      Extend(es, e);
      assert Changes(es, [e], id);
    } else {
      forall more ensures !Changes(es, more, id) {
        if Legal(es + more) { RestStays(es, more, id); }
      }
    }
  }
}
