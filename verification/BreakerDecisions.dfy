/** What a caller of the SDK's breaker meets, and when the circuit moves, told by what happened to it. */
module BreakerDecisions {
  import opened Wrappers
  import opened CircuitBreaker

  /* ---------- The history ---------- */

  predicate Succeeds(e: Event) {
    e.Succeed? || (e.Finish? && e.error.None?)
  }

  function ErrorOf(e: Event): Option<string> {
    match e
    case Fail(message) => Some(message)
    case Finish(_, error) => error
    case _ => None
  }

  predicate Reads(e: Event) {
    e.Start? || e.GetState? || e.GetStatus?
  }

  /** Successes recorded since the circuit last became half-open; `n` of them before the run. */
  ghost function Wins(s: Sys, c: Config, es: seq<Event>, n: nat): nat
    requires Executable(s, c, es)
    decreases |es|
  {
    if es == [] then n
    else
      Wins(Next(s, c, es[0]), c, es[1..],
           if !s.b.state.HalfOpen? then 0 else if Succeeds(es[0]) then n + 1 else n)
  }

  /** When the circuit last opened; `at` before the run. */
  ghost function LastOpened(s: Sys, c: Config, es: seq<Event>, at: int): int
    requires Executable(s, c, es)
    decreases |es|
  {
    if es == [] then at
    else
      var t := Next(s, c, es[0]);
      LastOpened(t, c, es[1..], if !s.b.state.Open? && t.b.state.Open? then s.now else at)
  }

  /** Failures stamped `start` or later. */
  ghost function CountSince(log: seq<Failure>, start: int): nat {
    if log == [] then 0 else (if log[0].timestamp >= start then 1 else 0) + CountSince(log[1..], start)
  }

  lemma {:induction false} RecentCounts(log: seq<Failure>, start: int)
    ensures |Recent(log, start)| == CountSince(log, start)
  {
    if log != [] {
      RecentCounts(log[1..], start);
    }
  }

  /** The fields agree with the history. */
  ghost predicate Remembers(s: Sys, wins: nat, openTime: int) {
    && (s.b.state.HalfOpen? ==> s.b.halfOpenSuccessCount == wins)
    && s.b.openedAt == if s.b.state.Closed? then None else Some(openTime)
  }

  lemma {:induction false} RunRemembers(s: Sys, c: Config, es: seq<Event>, wins: nat, openTime: int)
    requires Executable(s, c, es) && Remembers(s, wins, openTime)
    ensures Remembers(Run(s, c, es), Wins(s, c, es, wins), LastOpened(s, c, es, openTime))
    decreases |es|
  {
    if es != [] {
      var t := Next(s, c, es[0]);
      RunRemembers(t, c, es[1..],
                   if !s.b.state.HalfOpen? then 0 else if Succeeds(es[0]) then wins + 1 else wins,
                   if !s.b.state.Open? && t.b.state.Open? then s.now else openTime);
    }
  }

  lemma Reachable(s: Sys, c: Config, es: seq<Event>)
    requires Initial(s) && Executable(s, c, es)
    ensures var t := Run(s, c, es);
      && Remembers(t, Wins(s, c, es, 0), LastOpened(s, c, es, 0))
      && LogInv(t, c) && ProbeInv(t, c)
  {
    RunRemembers(s, c, es, 0, 0);
    RunKeepsLog(s, c, es);
    assert Current(s) == {};
    RunKeepsProbes(s, c, es);
  }

  /** Failures are logged in the order of their times, none later than now. */
  ghost predicate LogOrdered(log: seq<Failure>, now: int) {
    && (forall i, j :: 0 <= i < j < |log| ==> log[i].timestamp <= log[j].timestamp)
    && forall i :: 0 <= i < |log| ==> log[i].timestamp <= now
  }

  lemma {:induction false} RunOrdersLog(s: Sys, c: Config, es: seq<Event>)
    requires Executable(s, c, es) && LogOrdered(s.log, s.now)
    ensures LogOrdered(Run(s, c, es).log, Run(s, c, es).now)
    decreases |es|
  {
    if es != [] {
      RunOrdersLog(Next(s, c, es[0]), c, es[1..]);
    }
  }

  lemma {:induction false} RecentLast(log: seq<Failure>, now: int, start: int)
    requires LogOrdered(log, now)
    ensures Recent(log, start) != [] <==> log != [] && log[|log| - 1].timestamp >= start
    ensures Recent(log, start) != [] ==> Recent(log, start)[|Recent(log, start)| - 1] == log[|log| - 1]
  {
    if log != [] {
      RecentLast(log[1..], now, start);
    }
  }

  /** The recovery timeout has passed; a circuit opened at time 0 never recovers. */
  predicate Recovered(openTime: int, c: Config, now: int) {
    openTime != 0 && now >= openTime + c.recoveryTimeoutMs
  }

  /* ---------- Who is admitted ---------- */

  /** After any run, `execute` calls the provider if and only if the circuit is closed, or its
      recovery timeout has passed and a probe is allowed at all, or it is half-open and the live
      probes of the phase less the older ones finished in it are below the limit. The call is a
      probe unless the circuit is closed, and every refusal names the end of the recovery timeout. */
  lemma AdmissionExact(s: Sys, c: Config, es: seq<Event>, id: nat)
    requires Initial(s) && Executable(s, c, es) && id !in Run(s, c, es).calls
    ensures var t, openTime := Run(s, c, es), LastOpened(s, c, es, 0);
      var u, answer := Next(t, c, Start(id)), Begin(t.b, c, t.now).1;
      && (id in u.calls <==>
            || t.b.state.Closed?
            || (t.b.state.Open? && Recovered(openTime, c, t.now) && c.halfOpenMaxRequests >= 1)
            || (t.b.state.HalfOpen? && |Current(t)| - t.late < c.halfOpenMaxRequests))
      && (id in u.calls ==>
            && u.calls == t.calls[id := u.calls[id]]
            && u.calls[id].since == t.now
            && (u.calls[id].probe <==> !t.b.state.Closed?)
            && answer == if t.b.state.Closed? then Plain else Probe)
      && (id !in u.calls ==> u.calls == t.calls && answer == Refused(Some(openTime + c.recoveryTimeoutMs)))
  {
    Reachable(s, c, es);
  }

  /* ---------- When the circuit moves ---------- */

  lemma ClosedMoves(t: Sys, c: Config, e: Event)
    requires LogInv(t, c) && Enabled(t, e) && t.b.state.Closed?
    ensures var u := Next(t, c, e);
      && !u.b.state.HalfOpen?
      && (u.b.state.Open? <==>
            && ErrorOf(e).Some?
            && CountSince(t.log + [Failure(t.now, ErrorOf(e).value)], t.now - c.failureWindowMs) >= c.failureThreshold)
  {
    if ErrorOf(e).Some? {
      FailureKeepsLog(t, c, ErrorOf(e).value);
      RecentCounts(t.log + [Failure(t.now, ErrorOf(e).value)], t.now - c.failureWindowMs);
    }
  }

  lemma OpenMoves(t: Sys, c: Config, e: Event, wins: nat, openTime: int)
    requires Remembers(t, wins, openTime) && Enabled(t, e) && t.b.state.Open?
    ensures var u := Next(t, c, e);
      && (u.b.state.HalfOpen? <==> Reads(e) && Recovered(openTime, c, t.now))
      && (u.b.state.Closed? <==> e.Reset?)
  {
  }

  lemma HalfOpenMoves(t: Sys, c: Config, e: Event, wins: nat, openTime: int)
    requires Remembers(t, wins, openTime) && Enabled(t, e) && t.b.state.HalfOpen?
    ensures var u := Next(t, c, e);
      && (u.b.state.Open? <==> ErrorOf(e).Some?)
      && (u.b.state.Closed? <==> e.Reset? || (Succeeds(e) && wins + 1 >= c.successThreshold))
  {
  }

  /** After any run, whatever happens next: a closed circuit opens exactly on a failure that
      completes the threshold within the window; an open one half-opens exactly when it is read
      after the recovery timeout; a half-open one opens exactly on a failure, and closes exactly
      on the success that completes the threshold since it half-opened. A reset closes it. */
  lemma MovesExactly(s: Sys, c: Config, es: seq<Event>, e: Event)
    requires Initial(s) && Executable(s, c, es) && Enabled(Run(s, c, es), e)
    ensures var t := Run(s, c, es);
      var u, wins, openTime := Next(t, c, e), Wins(s, c, es, 0), LastOpened(s, c, es, 0);
      match t.b.state
      case Closed =>
        && !u.b.state.HalfOpen?
        && (u.b.state.Open? <==>
              && ErrorOf(e).Some?
              && CountSince(t.log + [Failure(t.now, ErrorOf(e).value)], t.now - c.failureWindowMs)
                 >= c.failureThreshold)
      case Open =>
        && (u.b.state.HalfOpen? <==> Reads(e) && Recovered(openTime, c, t.now))
        && (u.b.state.Closed? <==> e.Reset?)
      case HalfOpen =>
        && (u.b.state.Open? <==> ErrorOf(e).Some?)
        && (u.b.state.Closed? <==> e.Reset? || (Succeeds(e) && wins + 1 >= c.successThreshold))
  {
    Reachable(s, c, es);
    var t, wins, openTime := Run(s, c, es), Wins(s, c, es, 0), LastOpened(s, c, es, 0);
    match t.b.state
    case Closed => ClosedMoves(t, c, e);
    case Open => OpenMoves(t, c, e, wins, openTime);
    case HalfOpen => HalfOpenMoves(t, c, e, wins, openTime);
  }

  lemma ReportedFailures(t: Sys, c: Config)
    requires LogInv(t, c) && LogOrdered(t.log, t.now)
    ensures var fs := Next(t, c, GetStatus).b.failures; var start := t.now - c.failureWindowMs;
      && |fs| == CountSince(t.log, start)
      && (fs != [] <==> t.log != [] && t.log[|t.log| - 1].timestamp >= start)
      && (fs != [] ==> fs[|fs| - 1] == t.log[|t.log| - 1])
  {
    RecentCounts(t.log, t.now - c.failureWindowMs);
    RecentLast(t.log, t.now, t.now - c.failureWindowMs);
  }

  /** The status report of any moment: the failures of the window since the circuit last closed and
      the last of them, the successes since it half-opened, and the time it opened. */
  lemma StatusExactly(s: Sys, c: Config, es: seq<Event>)
    requires Initial(s) && Executable(s, c, es)
    ensures var t, wins, openTime := Run(s, c, es), Wins(s, c, es, 0), LastOpened(s, c, es, 0);
      var after := Next(t, c, GetStatus).b;
      var status := StatusOf(after, after.failures);
      && status.failureCount == CountSince(t.log, t.now - c.failureWindowMs)
      && status.lastFailureAt
         == (if t.log != [] && t.log[|t.log| - 1].timestamp >= t.now - c.failureWindowMs
             then Some(t.log[|t.log| - 1].timestamp) else None)
      && (status.state.Closed? <==> t.b.state.Closed?)
      && (status.state.Open? <==> t.b.state.Open? && !Recovered(openTime, c, t.now))
      && (status.openedAt == if t.b.state.Closed? || openTime == 0 then None else Some(openTime))
      && status.halfOpenSuccessCount
         == if status.state.HalfOpen? then Some(if t.b.state.HalfOpen? then wins else 0) else None
  {
    Reachable(s, c, es);
    RunOrdersLog(s, c, es);
    ReportedFailures(Run(s, c, es), c);
  }
}
