/** When the half-open limit of the circuit breaker bounds the probes that are really live. */
module HalfOpenLimit {
  import opened Wrappers
  import opened Sums
  import opened CircuitBreaker

  /** Every probe in flight began less than `d` milliseconds ago. */
  ghost predicate Young(s: Sys, d: int) {
    forall id :: id in s.calls && s.calls[id].probe ==> s.now - s.calls[id].since < d
  }

  /** That holds in every state of the run. */
  ghost predicate YoungRun(s: Sys, c: Config, es: seq<Event>, d: int)
    requires Executable(s, c, es)
    decreases |es|
  {
    Young(s, d) && (es != [] ==> YoungRun(Next(s, c, es[0]), c, es[1..], d))
  }

  ghost predicate ProbesBefore(s: Sys, at: int) {
    forall id :: id in LiveProbes(s) ==> s.calls[id].since <= at
  }

  /** A half-open circuit has only probes of its own phase, and an open one only probes
      admitted before it opened. */
  ghost predicate PhaseInv(s: Sys, c: Config) {
    && ProbeInv(s, c)
    && |LiveProbes(s)| <= c.halfOpenMaxRequests
    && (forall id :: id in s.calls ==> s.calls[id].since <= s.now)
    && (s.b.state.HalfOpen? ==> s.late == 0 && Older(s) == {})
    && (s.b.state.Open? ==> s.b.openedAt.Some? && ProbesBefore(s, s.b.openedAt.value))
  }

  lemma HalfOpenLimit(s: Sys, c: Config)
    requires ProbeInv(s, c) && s.late == 0 && Older(s) == {}
    ensures |LiveProbes(s)| <= c.halfOpenMaxRequests
  {
    assert LiveProbes(s) == Current(s) + Older(s);
  }

  lemma StartKeepsPhase(s: Sys, c: Config, id: nat, d: int)
    requires PhaseInv(s, c) && Young(s, d) && (d <= c.recoveryTimeoutMs || d <= 0) && Enabled(s, Start(id))
    ensures PhaseInv(Next(s, c, Start(id)), c)
  {
    var t := Next(s, c, Start(id));
    StartKeepsProbes(s, c, id);
    if Reopens(s.b, c, s.now) {
      assert forall x :: x in Older(t) ==> x in LiveProbes(s);
      HalfOpenLimit(t, c);
    } else if s.b.state.HalfOpen? {
      assert forall x :: x in Older(t) ==> x in Older(s);
      HalfOpenLimit(t, c);
    } else {
      assert LiveProbes(t) == LiveProbes(s);
      assert s.b.state.Open? ==> ProbesBefore(t, s.b.openedAt.value);
    }
  }

  lemma FinishKeepsPhase(s: Sys, c: Config, id: nat, error: Option<string>)
    requires PhaseInv(s, c) && Enabled(s, Finish(id, error))
    ensures PhaseInv(Next(s, c, Finish(id, error)), c)
  {
    var t := Next(s, c, Finish(id, error));
    FinishKeepsProbes(s, c, id, error);
    assert LiveProbes(t) <= LiveProbes(s) && Older(t) <= Older(s);
    SubsetSize(LiveProbes(t), LiveProbes(s));
    assert s.b.state.HalfOpen? && s.calls[id].probe ==> id !in Older(s);
    assert s.b.state.Open? ==> ProbesBefore(t, s.b.openedAt.value);
    assert ProbesBefore(t, s.now);
  }

  lemma StepKeepsPhase(s: Sys, c: Config, e: Event, d: int)
    requires PhaseInv(s, c) && Young(s, d) && (d <= c.recoveryTimeoutMs || d <= 0) && Enabled(s, e)
    ensures PhaseInv(Next(s, c, e), c)
  {
    var t := Next(s, c, e);
    StepKeepsProbes(s, c, e);
    match e
    case Start(id) => StartKeepsPhase(s, c, id, d);
    case Finish(id, error) => FinishKeepsPhase(s, c, id, error);
    case _ =>
  }

  lemma {:induction false} RunKeepsPhase(s: Sys, c: Config, es: seq<Event>, d: int)
    requires PhaseInv(s, c) && Executable(s, c, es) && YoungRun(s, c, es, d)
    requires d <= c.recoveryTimeoutMs || d <= 0
    ensures PhaseInv(Run(s, c, es), c)
    decreases |es|
  {
    if es != [] {
      StepKeepsPhase(s, c, es[0], d);
      RunKeepsPhase(Next(s, c, es[0]), c, es[1..], d);
    }
  }

  /** When every probe is shorter than the recovery timeout, the live probes never pass the
      limit, however long other calls take and whatever is recorded directly or reset meanwhile. */
  lemma ShortCallsKeepLimit(s: Sys, c: Config, es: seq<Event>, d: int)
    requires Initial(s) && Executable(s, c, es) && YoungRun(s, c, es, d)
    requires d <= c.recoveryTimeoutMs || d <= 0
    ensures |LiveProbes(Run(s, c, es))| <= c.halfOpenMaxRequests
  {
    assert Current(s) == {} && LiveProbes(s) == {};
    RunKeepsPhase(s, c, es, d);
  }

  /* ---------- Runs that pass the limit ---------- */

  /** A run from a fresh circuit at time 1, all of whose probes stay younger than `d`. */
  ghost predicate Reaches(c: Config, d: int, es: seq<Event>, t: Sys) {
    && Executable(BEGIN, c, es) && YoungRun(BEGIN, c, es, d) && Run(BEGIN, c, es) == t
  }

  const BEGIN := Sys(FRESH, 1, map[], 0, 0, [])

  lemma {:induction false} YoungExtend(s: Sys, c: Config, es: seq<Event>, e: Event, d: int)
    requires Executable(s, c, es) && YoungRun(s, c, es, d)
    requires Enabled(Run(s, c, es), e) && Young(Next(Run(s, c, es), c, e), d)
    ensures Executable(s, c, es + [e]) && YoungRun(s, c, es + [e], d)
    ensures Run(s, c, es + [e]) == Next(Run(s, c, es), c, e)
    decreases |es|
  {
    Extend(s, c, es, e);
    var more := es + [e];
    if es == [] {
      assert more[1..] == [];
    } else {
      assert more[1..] == es[1..] + [e];
      YoungExtend(Next(s, c, es[0]), c, es[1..], e, d);
    }
  }

  lemma Append(c: Config, d: int, before: seq<Event>, s: Sys, e: Event) returns (es: seq<Event>, t: Sys)
    requires Reaches(c, d, before, s) && Enabled(s, e) && Young(Next(s, c, e), d)
    ensures t == Next(s, c, e) && Reaches(c, d, es, t)
  {
    YoungExtend(BEGIN, c, before, e, d);
    es, t := before + [e], Next(s, c, e);
  }

  /** A circuit opens at all unless its window is negative and its threshold positive. */
  predicate CanOpen(c: Config) {
    c.failureThreshold <= 0 || c.failureWindowMs >= 0
  }

  ghost predicate AllAt(fs: seq<Failure>, at: int) {
    forall i :: 0 <= i < |fs| ==> fs[i].timestamp == at
  }

  lemma {:induction false} RecentAll(fs: seq<Failure>, at: int, start: int)
    requires AllAt(fs, at) && start <= at
    ensures Recent(fs, start) == fs
  {
    if fs != [] {
      assert AllAt(fs[1..], at);
      RecentAll(fs[1..], at, start);
    }
  }

  lemma FailClosed(b: Breaker, c: Config, now: int)
    requires b.state.Closed? && AllAt(b.failures, now) && CanOpen(c)
    ensures var n := RecordFailure(b, c, now, "");
      if |b.failures| + 1 >= c.failureThreshold
      then n.state.Open? && n.openedAt == Some(now)
      else n.state.Closed? && AllAt(n.failures, now) && |n.failures| == |b.failures| + 1
  {
    if c.failureWindowMs >= 0 {
      RecentAll(b.failures + [Failure(now, "")], now, now - c.failureWindowMs);
    }
  }

  lemma {:induction false} FailTimes(c: Config, d: int, k: nat) returns (es: seq<Event>, t: Sys)
    requires CanOpen(c) && (k == 0 || k < c.failureThreshold)
    ensures Reaches(c, d, es, t) && t.calls == map[] && t.now == 1
    ensures t.b.state.Closed? && |t.b.failures| == k && AllAt(t.b.failures, 1)
  {
    if k == 0 {
      es, t := [], BEGIN;
    } else {
      var before, s := FailTimes(c, d, k - 1);
      FailClosed(s.b, c, 1);
      es, t := Append(c, d, before, s, Fail(""));
    }
  }

  lemma OpenRun(c: Config, d: int) returns (es: seq<Event>, t: Sys)
    requires CanOpen(c)
    ensures Reaches(c, d, es, t) && t.calls == map[] && t.now == 1
    ensures t.b.state.Open? && t.b.openedAt == Some(1)
  {
    var before, s := FailTimes(c, d, if c.failureThreshold <= 1 then 0 else c.failureThreshold - 1);
    FailClosed(s.b, c, 1);
    es, t := Append(c, d, before, s, Fail(""));
  }

  function Wait(c: Config): nat {
    if c.recoveryTimeoutMs < 0 then 0 else c.recoveryTimeoutMs
  }

  /** An open circuit, after its recovery timeout, admits call `id` as the first probe of a phase. */
  lemma NextProbe(c: Config, d: int, before: seq<Event>, s: Sys, id: nat) returns (es: seq<Event>, t: Sys)
    requires Reaches(c, d, before, s) && d > Wait(c) && c.halfOpenMaxRequests >= 1
    requires s.b.state.Open? && s.b.openedAt == Some(s.now) && s.now > 0 && id !in s.calls
    requires forall x :: x in s.calls ==> s.calls[x].since == s.now
    ensures Reaches(c, d, es, t) && t.now == s.now + Wait(c)
    ensures t.b.state.HalfOpen? && t.b.halfOpenCount == 1
    ensures t.calls == s.calls[id := Call(true, t.phase, t.now)]
  {
    var mid, u := Append(c, d, before, s, Tick(Wait(c)));
    es, t := Append(c, d, mid, u, Start(id));
  }

  /** One probe of an earlier phase is live, and `k` of the current one. */
  ghost predicate TwoPhases(s: Sys, c: Config, k: nat) {
    && s.b.state.HalfOpen? && s.b.halfOpenCount == k
    && s.calls.Keys == Below(k + 1)
    && (forall id :: id in s.calls ==> s.calls[id].probe && s.now - s.calls[id].since <= Wait(c))
  }

  lemma TwoKeys(calls: map<nat, Call>, a: Call, b: Call)
    requires calls == map[0 := a][1 := b]
    ensures calls.Keys == Below(2)
  {
    assert forall id :: id in calls.Keys <==> id in Below(2);
  }

  lemma FirstOverlap(c: Config, d: int) returns (es: seq<Event>, t: Sys)
    requires CanOpen(c) && d > Wait(c) && c.halfOpenMaxRequests >= 1
    ensures Reaches(c, d, es, t) && TwoPhases(t, c, 1)
  {
    var open, s := OpenRun(c, d);
    var probe, u := NextProbe(c, d, open, s, 0);
    var again, v := Append(c, d, probe, u, Fail(""));
    es, t := NextProbe(c, d, again, v, 1);
    TwoKeys(t.calls, u.calls[0], t.calls[1]);
  }

  lemma OneMore(s: Sys, c: Config, k: nat)
    requires 1 <= k < c.halfOpenMaxRequests && TwoPhases(s, c, k)
    ensures Enabled(s, Start(k + 1)) && TwoPhases(Next(s, c, Start(k + 1)), c, k + 1)
  {
    var t := Next(s, c, Start(k + 1));
    assert t.calls == s.calls[k + 1 := Call(true, s.phase, s.now)];
    assert t.calls.Keys == Below(k + 1) + {k + 1};
  }

  lemma {:induction false} Overlap(c: Config, d: int, k: nat) returns (es: seq<Event>, t: Sys)
    requires CanOpen(c) && d > Wait(c) && 1 <= k <= c.halfOpenMaxRequests
    ensures Reaches(c, d, es, t) && TwoPhases(t, c, k)
  {
    if k == 1 {
      es, t := FirstOverlap(c, d);
    } else {
      var before, s := Overlap(c, d, k - 1);
      OneMore(s, c, k - 1);
      es, t := Append(c, d, before, s, Start(k));
    }
  }

  /** With probes that may be as old as the recovery timeout, one more probe than the limit is live. */
  lemma LongCallsBreakLimit(c: Config, d: int) returns (es: seq<Event>)
    requires CanOpen(c) && c.halfOpenMaxRequests >= 1 && d > Wait(c)
    ensures Executable(BEGIN, c, es) && YoungRun(BEGIN, c, es, d)
    ensures |LiveProbes(Run(BEGIN, c, es))| == c.halfOpenMaxRequests + 1
  {
    var t;
    es, t := Overlap(c, d, c.halfOpenMaxRequests);
    assert LiveProbes(t) == t.calls.Keys == Below(c.halfOpenMaxRequests + 1);
  }

  /* ---------- Circuits without probes ---------- */

  ghost predicate PastFailures(fs: seq<Failure>, now: int) {
    forall i :: 0 <= i < |fs| ==> fs[i].timestamp <= now
  }

  lemma {:induction false} RecentNone(fs: seq<Failure>, now: int, start: int)
    requires PastFailures(fs, now) && now < start
    ensures Recent(fs, start) == []
  {
    if fs != [] {
      assert PastFailures(fs[1..], now);
      RecentNone(fs[1..], now, start);
    }
  }

  /** No probe was ever admitted, and a circuit that cannot open is closed. */
  ghost predicate Dormant(s: Sys, c: Config) {
    && ProbeInv(s, c) && s.late == 0
    && (forall id :: id in s.calls ==> !s.calls[id].probe)
    && (!CanOpen(c) ==> s.b.state.Closed? && PastFailures(s.b.failures, s.now))
  }

  lemma FailKeepsClosed(b: Breaker, c: Config, now: int, error: string)
    requires b.state.Closed? && PastFailures(b.failures, now) && !CanOpen(c)
    ensures var n := RecordFailure(b, c, now, error); n.state.Closed? && PastFailures(n.failures, now)
  {
    RecentNone(b.failures + [Failure(now, error)], now, now - c.failureWindowMs);
  }

  lemma StepKeepsDormant(s: Sys, c: Config, e: Event)
    requires Dormant(s, c) && Enabled(s, e) && (c.halfOpenMaxRequests == 0 || !CanOpen(c))
    ensures Dormant(Next(s, c, e), c)
  {
    StepKeepsProbes(s, c, e);
    assert Current(s) == {};
    if !CanOpen(c) {
      var start := s.now - c.failureWindowMs;
      RecentNone(s.b.failures, s.now, start);
      match e
      case Fail(error) => FailKeepsClosed(s.b, c, s.now, error);
      case Finish(_, Some(error)) => FailKeepsClosed(s.b, c, s.now, error);
      case _ =>
    }
  }

  lemma {:induction false} RunKeepsDormant(s: Sys, c: Config, es: seq<Event>)
    requires Dormant(s, c) && Executable(s, c, es) && (c.halfOpenMaxRequests == 0 || !CanOpen(c))
    ensures Dormant(Run(s, c, es), c)
    decreases |es|
  {
    if es != [] {
      StepKeepsDormant(s, c, es[0]);
      RunKeepsDormant(Next(s, c, es[0]), c, es[1..]);
    }
  }

  lemma NoProbesKeepLimit(s: Sys, c: Config, es: seq<Event>)
    requires Initial(s) && Executable(s, c, es) && (c.halfOpenMaxRequests == 0 || !CanOpen(c))
    ensures LiveProbes(Run(s, c, es)) == {}
  {
    assert Current(s) == {};
    RunKeepsDormant(s, c, es);
  }

  /* ---------- The exact condition ---------- */

  ghost predicate LimitKept(s: Sys, c: Config, es: seq<Event>, d: int) {
    Initial(s) && Executable(s, c, es) && YoungRun(s, c, es, d) ==> |LiveProbes(Run(s, c, es))| <= c.halfOpenMaxRequests
  }

  lemma LimitSufficient(c: Config, d: int)
    requires d <= c.recoveryTimeoutMs || d <= 0 || c.halfOpenMaxRequests == 0 || !CanOpen(c)
    ensures forall s, es :: LimitKept(s, c, es, d)
  {
    forall s, es ensures LimitKept(s, c, es, d) {
      if Initial(s) && Executable(s, c, es) && YoungRun(s, c, es, d) {
        if d <= c.recoveryTimeoutMs || d <= 0 {
          ShortCallsKeepLimit(s, c, es, d);
        } else {
          NoProbesKeepLimit(s, c, es);
        }
      }
    }
  }

  /** The live probes respect the limit in all runs whose probes stay younger than `d` if and
      only if `d` is at most the recovery timeout, unless the configuration lets no probe
      exist: a limit of zero, or a circuit that cannot open; or no probe is that young. */
  lemma HalfOpenLimitExact(c: Config, d: int)
    ensures (forall s, es :: LimitKept(s, c, es, d))
      <==> d <= c.recoveryTimeoutMs || d <= 0 || c.halfOpenMaxRequests == 0 || !CanOpen(c)
  {
    if d <= c.recoveryTimeoutMs || d <= 0 || c.halfOpenMaxRequests == 0 || !CanOpen(c) {
      LimitSufficient(c, d);
    } else {
      var es := LongCallsBreakLimit(c, d);
      assert !LimitKept(BEGIN, c, es, d);
    }
  }
}
