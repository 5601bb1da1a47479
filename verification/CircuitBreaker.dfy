/**
 The in-process circuit breaker of the TypeScript SDK. `execute` is an admission step
 followed, once the call returns, by a separate finishing step; any number of calls
 overlap. Every synchronous section reads one clock value, in milliseconds.
 */
module CircuitBreaker {
  import opened Wrappers

  datatype State = Closed | Open | HalfOpen

  datatype Config = Config(
    failureThreshold: int, failureWindowMs: int, recoveryTimeoutMs: int,
    successThreshold: int, halfOpenMaxRequests: nat)

  datatype Failure = Failure(timestamp: int, error: string)

  datatype Breaker = Breaker(
    state: State, failures: seq<Failure>, halfOpenCount: int,
    openedAt: Option<int>, halfOpenSuccessCount: int)

  const FRESH := Breaker(Closed, [], 0, None, 0)

  /** The failures inside the window that starts at `start`. */
  function Recent(fs: seq<Failure>, start: int): seq<Failure> {
    if fs == [] then []
    else (if fs[0].timestamp >= start then [fs[0]] else []) + Recent(fs[1..], start)
  }

  /** An `openedAt` of 0 is falsy in the source and reads as never opened. */
  predicate CanAttemptHalfOpen(b: Breaker, c: Config, now: int) {
    b.openedAt.Some? && b.openedAt.value != 0 && now >= b.openedAt.value + c.recoveryTimeoutMs
  }

  function Transition(b: Breaker, to: State, now: int): Breaker {
    match to
    case Open => b.(state := Open, openedAt := Some(now), halfOpenSuccessCount := 0)
    case HalfOpen => b.(state := HalfOpen, halfOpenSuccessCount := 0, halfOpenCount := 0)
    case Closed => b.(state := Closed, failures := [], openedAt := None, halfOpenSuccessCount := 0)
  }

  predicate Reopens(b: Breaker, c: Config, now: int) {
    b.state.Open? && CanAttemptHalfOpen(b, c, now)
  }

  /** `getState`. */
  function Poll(b: Breaker, c: Config, now: int): Breaker {
    if Reopens(b, c, now) then Transition(b, HalfOpen, now) else b
  }

  datatype Admission = Plain | Probe | Refused(willRetryAt: Option<int>)

  function Refusal(b: Breaker, c: Config): Admission {
    Refused(if b.openedAt.Some? then Some(b.openedAt.value + c.recoveryTimeoutMs) else None)
  }

  /** The part of `execute` before the call is awaited. */
  function Begin(b: Breaker, c: Config, now: int): (Breaker, Admission) {
    var p := Poll(b, c, now);
    match p.state
    case Open => (p, Refusal(p, c))
    case HalfOpen =>
      if p.halfOpenCount >= c.halfOpenMaxRequests then (p, Refusal(p, c))
      else (p.(halfOpenCount := p.halfOpenCount + 1), Probe)
    case Closed => (p, Plain)
  }

  function RecordSuccess(b: Breaker, c: Config, now: int): Breaker {
    if b.state.HalfOpen? then
      var counted := b.(halfOpenSuccessCount := b.halfOpenSuccessCount + 1);
      if counted.halfOpenSuccessCount >= c.successThreshold then Transition(counted, Closed, now) else counted
    else b
  }

  function RecordFailure(b: Breaker, c: Config, now: int, error: string): Breaker {
    var pushed := b.(failures := b.failures + [Failure(now, error)]);
    match b.state
    case HalfOpen => Transition(pushed, Open, now)
    case Open => pushed
    case Closed =>
      var pruned := pushed.(failures := Recent(pushed.failures, now - c.failureWindowMs));
      if |pruned.failures| >= c.failureThreshold then Transition(pruned, Open, now) else pruned
  }

  /** The part of `execute` after the call returned; only an admitted probe gives its slot back. */
  function End(b: Breaker, c: Config, now: int, probe: bool, error: Option<string>): Breaker {
    var recorded := if error.None? then RecordSuccess(b, c, now) else RecordFailure(b, c, now, error.value);
    if probe then recorded.(halfOpenCount := recorded.halfOpenCount - 1) else recorded
  }

  datatype Status = Status(
    state: State, failureCount: nat, lastFailureAt: Option<int>,
    openedAt: Option<int>, halfOpenSuccessCount: Option<int>)

  function StatusOf(b: Breaker, recent: seq<Failure>): Status {
    Status(b.state, |recent|,
           if recent == [] then None else Some(recent[|recent| - 1].timestamp),
           if b.openedAt.Some? && b.openedAt.value != 0 then b.openedAt else None,
           if b.state.HalfOpen? then Some(b.halfOpenSuccessCount) else None)
  }

  /** `getStatus` prunes the stored list as a side effect. */
  function Inspect(b: Breaker, c: Config, now: int): Breaker {
    var p := Poll(b, c, now);
    p.(failures := Recent(p.failures, now - c.failureWindowMs))
  }

  /* ---------- The object ---------- */

  class ProviderCircuitBreaker {
    const config: Config
    var state: State
    var failures: seq<Failure>
    var halfOpenCount: int
    var openedAt: Option<int>
    var halfOpenSuccessCount: int

    function Value(): Breaker
      reads this
    {
      Breaker(state, failures, halfOpenCount, openedAt, halfOpenSuccessCount)
    }

    constructor (config: Config)
      ensures this.config == config && Value() == FRESH
    {
      this.config := config;
      state, failures, halfOpenCount, openedAt, halfOpenSuccessCount := Closed, [], 0, None, 0;
    }

    method MoveTo(to: State, now: int)
      modifies this
      ensures Value() == Transition(old(Value()), to, now)
    {
      state := to;
      if to == Open {
        openedAt := Some(now);
        halfOpenSuccessCount := 0;
      } else if to == HalfOpen {
        halfOpenSuccessCount := 0;
        halfOpenCount := 0;
      } else {
        failures := [];
        openedAt := None;
        halfOpenSuccessCount := 0;
      }
    }

    method GetState(now: int) returns (s: State)
      modifies this
      ensures Value() == Poll(old(Value()), config, now) && s == state
    {
      if state == Open && openedAt.Some? && openedAt.value != 0 && now >= openedAt.value + config.recoveryTimeoutMs {
        MoveTo(HalfOpen, now);
      }
      return state;
    }

    method BeginExecute(now: int) returns (a: Admission)
      modifies this
      ensures (Value(), a) == Begin(old(Value()), config, now)
    {
      var current := GetState(now);
      if current == Open {
        return Refused(if openedAt.Some? then Some(openedAt.value + config.recoveryTimeoutMs) else None);
      }
      if current == HalfOpen {
        if halfOpenCount >= config.halfOpenMaxRequests {
          return Refused(if openedAt.Some? then Some(openedAt.value + config.recoveryTimeoutMs) else None);
        }
        halfOpenCount := halfOpenCount + 1;
        return Probe;
      }
      return Plain;
    }

    /** The filter loop of the pruning read. */
    method GetRecentFailures(now: int) returns (recent: seq<Failure>)
      modifies this`failures
      ensures failures == recent == Recent(old(failures), now - config.failureWindowMs)
    {
      var start := now - config.failureWindowMs;
      recent := [];
      var i := 0;
      while i < |failures|
        invariant 0 <= i <= |failures|
        invariant recent + Recent(failures[i..], start) == Recent(failures, start)
      {
        assert failures[i..][1..] == failures[i + 1..];
        if failures[i].timestamp >= start {
          recent := recent + [failures[i]];
        }
        i := i + 1;
      }
      failures := recent;
    }

    method NoteSuccess(now: int)
      modifies this
      ensures Value() == RecordSuccess(old(Value()), config, now)
    {
      if state == HalfOpen {
        halfOpenSuccessCount := halfOpenSuccessCount + 1;
        if halfOpenSuccessCount >= config.successThreshold {
          MoveTo(Closed, now);
        }
      }
    }

    method NoteFailure(now: int, error: string)
      modifies this
      ensures Value() == RecordFailure(old(Value()), config, now, error)
    {
      failures := failures + [Failure(now, error)];
      if state == HalfOpen {
        MoveTo(Open, now);
        return;
      }
      if state == Closed {
        var recent := GetRecentFailures(now);
        if |recent| >= config.failureThreshold {
          MoveTo(Open, now);
        }
      }
    }

    method EndExecute(now: int, probe: bool, error: Option<string>)
      modifies this
      ensures Value() == End(old(Value()), config, now, probe, error)
    {
      if error.None? {
        NoteSuccess(now);
      } else {
        NoteFailure(now, error.value);
      }
      if probe {
        halfOpenCount := halfOpenCount - 1;
      }
    }

    method GetStatus(now: int) returns (status: Status)
      modifies this
      ensures Value() == Inspect(old(Value()), config, now)
      ensures status == StatusOf(Value(), failures)
    {
      var _ := GetState(now);
      var recent := GetRecentFailures(now);
      status := StatusOf(Value(), recent);
    }

    method Reset()
      modifies this
      ensures Value() == FRESH
    {
      state, failures, halfOpenCount, openedAt, halfOpenSuccessCount := Closed, [], 0, None, 0;
    }
  }

  /* ---------- Overlapping calls ---------- */

  /** A call in flight: whether it is a probe, in which half-open phase it was admitted, and when. */
  datatype Call = Call(probe: bool, phase: nat, since: int)

  /** `phase` counts the times `halfOpenCount` was zeroed, `late` the probes of earlier
      phases that finished since, `log` every failure since the circuit last closed. */
  datatype Sys = Sys(b: Breaker, now: int, calls: map<nat, Call>, phase: nat, late: nat, log: seq<Failure>)

  datatype Event =
    | Tick(d: nat)
    | Start(id: nat)
    | Finish(id: nat, error: Option<string>)
    | GetState
    | GetStatus
    | Succeed
    | Fail(message: string)
    | Reset

  predicate Enabled(s: Sys, e: Event) {
    match e
    case Start(id) => id !in s.calls
    case Finish(id, _) => id in s.calls
    case _ => true
  }

  function LogAfter(s: Sys, error: Option<string>, b: Breaker): seq<Failure> {
    if error.Some? then s.log + [Failure(s.now, error.value)]
    else if s.b.state.HalfOpen? && b.state.Closed? then []
    else s.log
  }

  function Next(s: Sys, c: Config, e: Event): Sys
    requires Enabled(s, e)
  {
    var zeroed := Reopens(s.b, c, s.now);
    var phase := if zeroed then s.phase + 1 else s.phase;
    var late := if zeroed then 0 else s.late;
    match e
    case Tick(d) => s.(now := s.now + d)
    case Start(id) =>
      var (b, a) := Begin(s.b, c, s.now);
      s.(b := b, phase := phase, late := late,
         calls := if a.Refused? then s.calls else s.calls[id := Call(a.Probe?, phase, s.now)])
    case Finish(id, error) =>
      var call := s.calls[id];
      var b := End(s.b, c, s.now, call.probe, error);
      s.(b := b, calls := s.calls - {id}, log := LogAfter(s, error, b),
         late := if call.probe && call.phase != s.phase then s.late + 1 else s.late)
    case GetState => s.(b := Poll(s.b, c, s.now), phase := phase, late := late)
    case GetStatus => s.(b := Inspect(s.b, c, s.now), phase := phase, late := late)
    case Succeed =>
      var b := RecordSuccess(s.b, c, s.now);
      s.(b := b, log := LogAfter(s, None, b))
    case Fail(error) =>
      var b := RecordFailure(s.b, c, s.now, error);
      s.(b := b, log := LogAfter(s, Some(error), b))
    case Reset => s.(b := FRESH, phase := s.phase + 1, late := 0, log := [])
  }

  ghost predicate Executable(s: Sys, c: Config, es: seq<Event>)
    decreases |es|
  {
    es == [] || (Enabled(s, es[0]) && Executable(Next(s, c, es[0]), c, es[1..]))
  }

  ghost function Run(s: Sys, c: Config, es: seq<Event>): Sys
    requires Executable(s, c, es)
    decreases |es|
  {
    if es == [] then s else Run(Next(s, c, es[0]), c, es[1..])
  }

  ghost predicate Initial(s: Sys) {
    s.b == FRESH && s.calls == map[] && s.phase == 0 && s.late == 0 && s.log == []
  }

  /* ---------- The probe ledger ---------- */

  ghost function Current(s: Sys): set<nat> {
    set id | id in s.calls && s.calls[id].probe && s.calls[id].phase == s.phase
  }

  ghost function Older(s: Sys): set<nat> {
    set id | id in s.calls && s.calls[id].probe && s.calls[id].phase != s.phase
  }

  ghost function LiveProbes(s: Sys): set<nat> {
    set id | id in s.calls && s.calls[id].probe
  }

  ghost predicate ProbeInv(s: Sys, c: Config) {
    && s.b.halfOpenCount == |Current(s)| - s.late
    && s.b.halfOpenCount <= c.halfOpenMaxRequests
    && forall id :: id in s.calls ==> s.calls[id].phase <= s.phase
  }

  lemma StartKeepsProbes(s: Sys, c: Config, id: nat)
    requires ProbeInv(s, c) && Enabled(s, Start(id))
    ensures ProbeInv(Next(s, c, Start(id)), c)
  {
    var t := Next(s, c, Start(id));
    var a := Begin(s.b, c, s.now).1;
    if Reopens(s.b, c, s.now) {
      assert Current(t) == if a.Probe? then {id} else {};
    } else {
      assert Current(t) == if a.Probe? then Current(s) + {id} else Current(s);
    }
  }

  lemma FinishKeepsProbes(s: Sys, c: Config, id: nat, error: Option<string>)
    requires ProbeInv(s, c) && Enabled(s, Finish(id, error))
    ensures ProbeInv(Next(s, c, Finish(id, error)), c)
  {
    var t := Next(s, c, Finish(id, error));
    assert t.b.halfOpenCount == s.b.halfOpenCount - if s.calls[id].probe then 1 else 0;
    if s.calls[id].probe && s.calls[id].phase == s.phase {
      assert Current(t) == Current(s) - {id} && id in Current(s);
    } else {
      assert Current(t) == Current(s);
    }
  }

  lemma StepKeepsProbes(s: Sys, c: Config, e: Event)
    requires ProbeInv(s, c) && Enabled(s, e)
    ensures ProbeInv(Next(s, c, e), c)
  {
    var t := Next(s, c, e);
    match e
    case Start(id) => StartKeepsProbes(s, c, id);
    case Finish(id, error) => FinishKeepsProbes(s, c, id, error);
    case GetState =>
      assert Current(t) == if Reopens(s.b, c, s.now) then {} else Current(s);
    case GetStatus =>
      assert Current(t) == if Reopens(s.b, c, s.now) then {} else Current(s);
    case Reset =>
      assert Current(t) == {};
    case Tick(_) => assert Current(t) == Current(s);
    case Succeed => assert Current(t) == Current(s);
    case Fail(_) => assert Current(t) == Current(s);
  }

  lemma {:induction false} RunKeepsProbes(s: Sys, c: Config, es: seq<Event>)
    requires ProbeInv(s, c) && Executable(s, c, es)
    ensures ProbeInv(Run(s, c, es), c)
    decreases |es|
  {
    if es != [] {
      StepKeepsProbes(s, c, es[0]);
      RunKeepsProbes(Next(s, c, es[0]), c, es[1..]);
    }
  }

  /** The probe ledger over all overlapping calls: the counter never passes its limit and
      is the live probes of the current phase minus the older ones that finished in it.
      So what the limit bounds is the live probes less the older ones, running or finished. */
  lemma ProbeLedger(s: Sys, c: Config, es: seq<Event>)
    requires Initial(s) && Executable(s, c, es)
    ensures var t := Run(s, c, es);
      && t.b.halfOpenCount <= c.halfOpenMaxRequests
      && t.b.halfOpenCount == |Current(t)| - t.late
      && (t.late == 0 && Older(t) == {} ==> |LiveProbes(t)| <= c.halfOpenMaxRequests)
  {
    assert Current(s) == {};
    RunKeepsProbes(s, c, es);
    var t := Run(s, c, es);
    assert LiveProbes(t) == Current(t) + Older(t);
    assert |LiveProbes(t)| == |Current(t)| + |Older(t)|;
  }

  /* ---------- The pruned failure list ---------- */

  lemma {:induction false} RecentRecent(fs: seq<Failure>, a: int, b: int)
    requires a <= b
    ensures Recent(Recent(fs, a), b) == Recent(fs, b)
  {
    if fs != [] {
      RecentRecent(fs[1..], a, b);
      RecentAppend(if fs[0].timestamp >= a then [fs[0]] else [], Recent(fs[1..], a), b);
    }
  }

  lemma {:induction false} RecentAppend(fs: seq<Failure>, gs: seq<Failure>, a: int)
    ensures Recent(fs + gs, a) == Recent(fs, a) + Recent(gs, a)
  {
    if fs == [] {
      assert fs + gs == gs;
    } else {
      assert (fs + gs)[1..] == fs[1..] + gs;
      RecentAppend(fs[1..], gs, a);
    }
  }

  /** The stored list and the full log agree on the current window, and while the circuit
      is closed the stored list is too short to open it. */
  ghost predicate LogInv(s: Sys, c: Config) {
    && Recent(s.b.failures, s.now - c.failureWindowMs) == Recent(s.log, s.now - c.failureWindowMs)
    && (s.b.state.Closed? ==> s.b.failures == [] || |s.b.failures| < c.failureThreshold)
    && (!s.b.state.Closed? ==> s.b.openedAt.Some?)
  }

  /** Recording one failure in both lists keeps them in agreement, and pruning twice is pruning once. */
  lemma RecentAfterFailure(fs: seq<Failure>, log: seq<Failure>, f: Failure, start: int)
    requires Recent(fs, start) == Recent(log, start)
    ensures Recent(fs + [f], start) == Recent(log + [f], start)
    ensures Recent(Recent(fs + [f], start), start) == Recent(fs + [f], start)
  {
    RecentAppend(fs, [f], start);
    RecentAppend(log, [f], start);
    RecentRecent(fs + [f], start, start);
  }

  lemma FailureKeepsLog(s: Sys, c: Config, error: string)
    requires LogInv(s, c)
    ensures var b := RecordFailure(s.b, c, s.now, error);
      LogInv(s.(b := b, log := LogAfter(s, Some(error), b)), c)
    ensures s.b.state.Closed? ==>
      (RecordFailure(s.b, c, s.now, error).state.Open? <==>
       |Recent(s.log + [Failure(s.now, error)], s.now - c.failureWindowMs)| >= c.failureThreshold)
  {
    RecentAfterFailure(s.b.failures, s.log, Failure(s.now, error), s.now - c.failureWindowMs);
  }

  lemma SuccessKeepsLog(s: Sys, c: Config)
    requires LogInv(s, c)
    ensures var b := RecordSuccess(s.b, c, s.now); LogInv(s.(b := b, log := LogAfter(s, None, b)), c)
  {
  }

  /** The agreement does not depend on the calls in flight or the probe counter. */
  lemma LogFrame(s: Sys, t: Sys, c: Config)
    requires LogInv(s, c) && t.now == s.now && t.log == s.log
    requires t.b.failures == s.b.failures && t.b.state == s.b.state && t.b.openedAt == s.b.openedAt
    ensures LogInv(t, c)
  {
  }

  lemma FinishKeepsLog(s: Sys, c: Config, id: nat, error: Option<string>)
    requires LogInv(s, c) && Enabled(s, Finish(id, error))
    ensures LogInv(Next(s, c, Finish(id, error)), c)
  {
    var b := if error.None? then RecordSuccess(s.b, c, s.now) else RecordFailure(s.b, c, s.now, error.value);
    var recorded := s.(b := b, log := LogAfter(s, error, b));
    if error.Some? {
      FailureKeepsLog(s, c, error.value);
    } else {
      SuccessKeepsLog(s, c);
    }
    LogFrame(recorded, Next(s, c, Finish(id, error)), c);
  }

  lemma TickKeepsLog(s: Sys, c: Config, d: nat)
    requires LogInv(s, c)
    ensures LogInv(Next(s, c, Tick(d)), c)
  {
    var start := s.now - c.failureWindowMs;
    RecentRecent(s.b.failures, start, start + d);
    RecentRecent(s.log, start, start + d);
  }

  lemma StatusKeepsLog(s: Sys, c: Config)
    requires LogInv(s, c)
    ensures LogInv(Next(s, c, GetStatus), c)
  {
    var start := s.now - c.failureWindowMs;
    RecentRecent(s.b.failures, start, start);
    RecentShorter(s.b.failures, start);
  }

  lemma StepKeepsLog(s: Sys, c: Config, e: Event)
    requires LogInv(s, c) && Enabled(s, e)
    ensures LogInv(Next(s, c, e), c)
  {
    match e
    case Tick(d) => TickKeepsLog(s, c, d);
    case Finish(id, error) => FinishKeepsLog(s, c, id, error);
    case Fail(error) => FailureKeepsLog(s, c, error);
    case GetStatus => StatusKeepsLog(s, c);
    case Succeed =>
    case Start(_) =>
    case GetState =>
    case Reset =>
  }

  lemma {:induction false} RecentShorter(fs: seq<Failure>, start: int)
    ensures |Recent(fs, start)| <= |fs|
  {
    if fs != [] { RecentShorter(fs[1..], start); }
  }

  lemma {:induction false} RunKeepsLog(s: Sys, c: Config, es: seq<Event>)
    requires LogInv(s, c) && Executable(s, c, es)
    ensures LogInv(Run(s, c, es), c)
    decreases |es|
  {
    if es != [] {
      StepKeepsLog(s, c, es[0]);
      RunKeepsLog(Next(s, c, es[0]), c, es[1..]);
    }
  }

  /** The pruned list refines the full log: after any run, with any pruning reads in it, a
      failure recorded while closed, directly or by a call that ends, opens the circuit exactly
      when the unpruned log since
      the last close has reached the threshold within the window; the status report counts
      that log too; and a closed circuit always stores fewer failures than the threshold. */
  lemma PrunedListRefinesLog(s: Sys, c: Config, es: seq<Event>, error: string)
    requires Initial(s) && Executable(s, c, es)
    ensures var t := Run(s, c, es); var start := t.now - c.failureWindowMs;
      && (t.b.state.Closed? ==>
            (Next(t, c, Fail(error)).b.state.Open?
             <==> |Recent(t.log + [Failure(t.now, error)], start)| >= c.failureThreshold))
      && (t.b.state.Closed? ==> forall id :: id in t.calls ==>
            (Next(t, c, Finish(id, Some(error))).b.state.Open?
             <==> |Recent(t.log + [Failure(t.now, error)], start)| >= c.failureThreshold))
      && (t.b.state.Closed? && c.failureThreshold >= 1 ==> |t.b.failures| < c.failureThreshold)
      && Inspect(t.b, c, t.now).failures == Recent(t.log, start)
      && (Begin(t.b, c, t.now).1.Refused? ==> Begin(t.b, c, t.now).1.willRetryAt.Some?)
  {
    RunKeepsLog(s, c, es);
    FailureKeepsLog(Run(s, c, es), c, error);
  }

  /* ---------- A run in which probes outlive their phase ---------- */

  lemma Extend(s: Sys, c: Config, es: seq<Event>, e: Event)
    requires Executable(s, c, es) && Enabled(Run(s, c, es), e)
    ensures Executable(s, c, es + [e]) && Run(s, c, es + [e]) == Next(Run(s, c, es), c, e)
    decreases |es|
  {
    if es == [] {
      assert [e][1..] == [];
    } else {
      Extend(Next(s, c, es[0]), c, es[1..], e);
      assert (es + [e])[1..] == es[1..] + [e];
    }
  }

  const ONE_PROBE := Config(1, 100, 10, 2, 1)

  /** From a phase with one live probe, a failing straggler reopens the circuit, and after
      the recovery timeout call `id` becomes the probe of a new phase. */
  lemma NextPhase(s: Sys, straggler: nat, id: nat) returns (es: seq<Event>)
    requires !s.b.state.Open? && s.b.failures == [] && s.now > 0
    requires straggler in s.calls && !s.calls[straggler].probe && id !in s.calls
    ensures Executable(s, ONE_PROBE, es)
    ensures var t := Run(s, ONE_PROBE, es);
      && t.b.state.HalfOpen? && t.b.halfOpenCount == 1 && t.b.halfOpenSuccessCount == 0
      && t.now == s.now + 10 && t.phase == s.phase + 1 && t.late == 0
      && t.calls == (s.calls - {straggler})[id := Call(true, s.phase + 1, s.now + 10)]
  {
    es := [];
    Extend(s, ONE_PROBE, es, Finish(straggler, Some("boom"))); es := es + [Finish(straggler, Some("boom"))];
    assert Recent([] + [Failure(s.now, "boom")], s.now - 100) == [Failure(s.now, "boom")];
    assert Run(s, ONE_PROBE, es).b.state.Open?;
    Extend(s, ONE_PROBE, es, Tick(10)); es := es + [Tick(10)];
    Extend(s, ONE_PROBE, es, Start(id)); es := es + [Start(id)];
  }

  /** With a limit of one probe, a probe left over from an earlier phase finishes in a
      later one, which then admits a second live probe of its own. */
  lemma OutlivingProbeBreaksLimit() returns (s: Sys, es: seq<Event>)
    ensures ONE_PROBE.halfOpenMaxRequests == 1 && Initial(s) && Executable(s, ONE_PROBE, es)
    ensures var t := Run(s, ONE_PROBE, es); |LiveProbes(t)| == 2 && Older(t) == {} && t.late == 1
  {
    var c := ONE_PROBE;
    s := Sys(FRESH, 1, map[], 0, 0, []);
    es := [];
    Extend(s, c, es, Start(0)); es := es + [Start(0)];
    Extend(s, c, es, Start(1)); es := es + [Start(1)];
    assert Run(s, c, es).calls == map[0 := Call(false, 0, 1), 1 := Call(false, 0, 1)];
    var more := NextPhase(Run(s, c, es), 0, 2);
    ExtendAll(s, c, es, more); es := es + more;
    assert Run(s, c, es).calls == map[1 := Call(false, 0, 1), 2 := Call(true, 1, 11)];
    more := SecondPhase(Run(s, c, es));
    ExtendAll(s, c, es, more); es := es + more;
    assert LiveProbes(Run(s, c, es)) == {3, 4};
  }

  lemma SecondPhase(s: Sys) returns (es: seq<Event>)
    requires s.b.state.HalfOpen? && s.now > 0 && s.phase == 1
    requires s.calls == map[1 := Call(false, 0, 1), 2 := Call(true, 1, 11)]
    ensures Executable(s, ONE_PROBE, es)
    ensures var t := Run(s, ONE_PROBE, es);
      t.calls == map[3 := Call(true, 2, s.now + 10), 4 := Call(true, 2, s.now + 10)] && t.phase == 2 && t.late == 1
  {
    var c := ONE_PROBE;
    es := [];
    Extend(s, c, es, Finish(1, Some("boom"))); es := es + [Finish(1, Some("boom"))];
    Extend(s, c, es, Tick(10)); es := es + [Tick(10)];
    Extend(s, c, es, Start(3)); es := es + [Start(3)];
    assert Run(s, c, es).calls == map[2 := Call(true, 1, 11), 3 := Call(true, 2, s.now + 10)];
    Extend(s, c, es, Finish(2, None)); es := es + [Finish(2, None)];
    Extend(s, c, es, Start(4)); es := es + [Start(4)];
    assert Run(s, c, es).calls == map[3 := Call(true, 2, s.now + 10), 4 := Call(true, 2, s.now + 10)];
  }

  lemma ExtendAll(s: Sys, c: Config, es: seq<Event>, more: seq<Event>)
    requires Executable(s, c, es) && Executable(Run(s, c, es), c, more)
    ensures Executable(s, c, es + more) && Run(s, c, es + more) == Run(Run(s, c, es), c, more)
    decreases |more|
  {
    if more == [] {
      assert es + more == es;
    } else {
      Extend(s, c, es, more[0]);
      ExtendAll(s, c, es + [more[0]], more[1..]);
      assert es + [more[0]] + more[1..] == es + more;
    }
  }
}
