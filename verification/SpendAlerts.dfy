/** Spend caps, threshold percentages and the deduplicated alert queue. */
module SpendAlerts {
  import opened Wrappers

  datatype Account = Account(cap: Option<int>, spend: int)
  {
    /** The guard of the spend-cap policy: no cap, or strictly below it. */
    predicate BelowCap() {
      cap.None? || spend < cap.value
    }
  }

  datatype AlertJob = AlertJob(tenant: string, threshold: int, period: string)

  const THRESHOLDS: seq<int> := [50, 75, 90, 100]

  function Pct(spend: int, cap: int): real
    requires cap > 0
  {
    (spend as real / cap as real) * 100.0
  }

  /** `[t for t in thresholds if old_pct < t <= new_pct]`. */
  function Between(ts: seq<int>, low: real, high: real): seq<int> {
    if ts == [] then []
    else if low < ts[0] as real <= high then [ts[0]] + Between(ts[1..], low, high)
    else Between(ts[1..], low, high)
  }

  /** The thresholds one charge crosses; none without a positive cap. */
  function Crossed(cap: Option<int>, oldSpend: int, newSpend: int): seq<int> {
    if cap.Some? && cap.value > 0
    then Between(THRESHOLDS, Pct(oldSpend, cap.value), Pct(newSpend, cap.value))
    else []
  }

  /** Insert that the partial unique index (tenant, threshold, period) deduplicates. */
  function Enqueue(jobs: seq<AlertJob>, job: AlertJob): seq<AlertJob> {
    if job in jobs then jobs else jobs + [job]
  }

  function EnqueueAll(jobs: seq<AlertJob>, tenant: string, ts: seq<int>, period: string): seq<AlertJob>
    decreases |ts|
  {
    if ts == [] then jobs
    else EnqueueAll(Enqueue(jobs, AlertJob(tenant, ts[0], period)), tenant, ts[1..], period)
  }

  /** The thresholds already alerted for a tenant, oldest first. */
  function ThresholdsOf(jobs: seq<AlertJob>, tenant: string): seq<int> {
    if jobs == [] then []
    else
      var n := |jobs| - 1;
      ThresholdsOf(jobs[..n], tenant) + if jobs[n].tenant == tenant then [jobs[n].threshold] else []
  }

  ghost predicate Ascending(ts: seq<int>) {
    forall i, j :: 0 <= i < j < |ts| ==> ts[i] < ts[j]
  }

  ghost predicate Distinct<T(!new)>(s: seq<T>) {
    forall i, j :: 0 <= i < j < |s| ==> s[i] != s[j]
  }

  lemma {:induction false} BetweenMembers(ts: seq<int>, low: real, high: real)
    ensures forall t :: t in Between(ts, low, high) <==> t in ts && low < t as real <= high
  {
    if ts != [] {
      BetweenMembers(ts[1..], low, high);
      assert ts == [ts[0]] + ts[1..];
    }
  }

  lemma {:induction false} BetweenAscending(ts: seq<int>, low: real, high: real)
    requires Ascending(ts)
    ensures Ascending(Between(ts, low, high))
  {
    if ts != [] {
      BetweenAscending(ts[1..], low, high);
      BetweenMembers(ts[1..], low, high);
      var rest := Between(ts[1..], low, high);
      forall j | 0 <= j < |rest| ensures ts[0] < rest[j] {
        assert rest[j] in rest;
      }
    }
  }

  lemma {:induction false} BetweenEmpty(ts: seq<int>, low: real, high: real)
    requires forall t :: t in ts ==> high < t as real
    ensures Between(ts, low, high) == []
  {
    if ts != [] {
      assert ts[0] in ts;
      assert forall t :: t in ts[1..] ==> t in ts;
      BetweenEmpty(ts[1..], low, high);
    }
  }

  /** Adjacent percentage intervals concatenate, in order, over ascending thresholds. */
  lemma {:induction false} BetweenTelescopes(ts: seq<int>, a: real, b: real, c: real)
    requires Ascending(ts) && a <= b <= c
    ensures Between(ts, a, b) + Between(ts, b, c) == Between(ts, a, c)
  {
    if ts != [] {
      BetweenTelescopes(ts[1..], a, b, c);
      if b < ts[0] as real {
        assert forall t :: t in ts[1..] ==> ts[0] < t;
        BetweenEmpty(ts[1..], a, b);
      }
    }
  }

  /** Two successive charges cross together what one charge of their sum crosses:
      every threshold once, none twice, lowest first. */
  lemma CrossedTelescopes(cap: Option<int>, a: int, b: int, c: int)
    requires a <= b <= c
    ensures Crossed(cap, a, b) + Crossed(cap, b, c) == Crossed(cap, a, c)
  {
    if cap.Some? && cap.value > 0 {
      BetweenTelescopes(THRESHOLDS, Pct(a, cap.value), Pct(b, cap.value), Pct(c, cap.value));
    }
  }

  /** `spend` is below `t` percent of the cap, without fractions. */
  lemma PctBelow(spend: int, cap: int, t: int)
    requires cap > 0
    ensures Pct(spend, cap) < t as real <==> 100 * spend < t * cap
  {
    var share := spend as real / cap as real;
    assert share * cap as real == spend as real;
    if 100 * spend < t * cap {
      assert share * 100.0 * cap as real < t as real * cap as real;
    }
  }

  lemma BetweenPct(cap: int, a: int, b: int)
    requires cap > 0
    ensures forall t :: t in Between(THRESHOLDS, Pct(a, cap), Pct(b, cap)) <==>
                        t in THRESHOLDS && Pct(a, cap) < t as real <= Pct(b, cap)
    ensures Ascending(Between(THRESHOLDS, Pct(a, cap), Pct(b, cap)))
  {
    BetweenMembers(THRESHOLDS, Pct(a, cap), Pct(b, cap));
    BetweenAscending(THRESHOLDS, Pct(a, cap), Pct(b, cap));
  }

  /** A charge from `a` to `b` crosses exactly the percentages 50, 75, 90 and 100 of a positive cap
      that lie above `a` and not above `b`, lowest first, and none without such a cap. */
  lemma CrossedIsExact(cap: Option<int>, a: int, b: int)
    ensures forall t :: t in Crossed(cap, a, b) <==>
      && cap.Some? && cap.value > 0
      && t in [50, 75, 90, 100] && 100 * a < t * cap.value <= 100 * b
    ensures Ascending(Crossed(cap, a, b))
  {
    if cap.Some? && cap.value > 0 {
      BetweenPct(cap.value, a, b);
      forall t ensures t in Crossed(cap, a, b) <==> t in [50, 75, 90, 100] && 100 * a < t * cap.value <= 100 * b {
        PctBelow(a, cap.value, t);
        PctBelow(b, cap.value, t);
      }
    }
  }

  /** The unique index: whatever is enqueued, no alert is ever queued twice. */
  lemma {:induction false} EnqueueAllDistinct(jobs: seq<AlertJob>, tenant: string, ts: seq<int>, period: string)
    requires Distinct(jobs)
    ensures Distinct(EnqueueAll(jobs, tenant, ts, period))
    ensures forall j :: j in EnqueueAll(jobs, tenant, ts, period) <==>
                        j in jobs || (j.tenant == tenant && j.threshold in ts && j.period == period)
    decreases |ts|
  {
    if ts != [] {
      EnqueueAllDistinct(Enqueue(jobs, AlertJob(tenant, ts[0], period)), tenant, ts[1..], period);
      assert ts == [ts[0]] + ts[1..];
    }
  }

  lemma EnqueueAllStaysDistinct(jobs: seq<AlertJob>, tenant: string, ts: seq<int>, period: string)
    requires Distinct(jobs)
    ensures Distinct(EnqueueAll(jobs, tenant, ts, period))
  {
    EnqueueAllDistinct(jobs, tenant, ts, period);
  }

  lemma {:induction false} ThresholdsOfMember(jobs: seq<AlertJob>, job: AlertJob)
    requires job in jobs
    ensures job.threshold in ThresholdsOf(jobs, job.tenant)
  {
    var n := |jobs| - 1;
    if jobs[n] != job {
      assert jobs == jobs[..n] + [jobs[n]];
      ThresholdsOfMember(jobs[..n], job);
    }
  }

  lemma ThresholdsOfAppend(jobs: seq<AlertJob>, job: AlertJob, other: string)
    ensures ThresholdsOf(jobs + [job], other)
         == ThresholdsOf(jobs, other) + if job.tenant == other then [job.threshold] else []
  {
    assert (jobs + [job])[..|jobs|] == jobs;
  }

  /** Thresholds a tenant was not yet alerted for all get through the index. */
  lemma {:induction false} EnqueueAllAppends(jobs: seq<AlertJob>, tenant: string, ts: seq<int>, period: string,
                                             other: string)
    requires Ascending(ts)
    requires forall t :: t in ts ==> t !in ThresholdsOf(jobs, tenant)
    ensures ThresholdsOf(EnqueueAll(jobs, tenant, ts, period), other)
         == ThresholdsOf(jobs, other) + if other == tenant then ts else []
    decreases |ts|
  {
    if ts == [] {
      assert ThresholdsOf(jobs, other) + [] == ThresholdsOf(jobs, other);
    } else {
      var job := AlertJob(tenant, ts[0], period);
      assert ts[0] in ts && ts[0] !in ThresholdsOf(jobs, tenant);
      if job in jobs {
        ThresholdsOfMember(jobs, job);
      }
      ThresholdsOfAppend(jobs, job, tenant);
      ThresholdsOfAppend(jobs, job, other);
      forall t | t in ts[1..] ensures t !in ThresholdsOf(jobs + [job], tenant) {
        assert t in ts;
      }
      EnqueueAllAppends(jobs + [job], tenant, ts[1..], period, other);
      if other == tenant {
        assert ThresholdsOf(jobs, other) + [ts[0]] + ts[1..] == ThresholdsOf(jobs, other) + ts;
      }
    }
  }
}
