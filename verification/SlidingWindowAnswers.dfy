/** What one check of the sliding window answers, and that checks are steps of the interleaved runs. */
module SlidingWindowAnswers {
  import opened Wrappers
  import opened Sums
  import opened SlidingWindow

  /* ---------- One check on any key ---------- */

  /** The members that are neither expired with their key nor older than the window. */
  ghost function InWindow(k: Key, now: real, at: real, window: real): set<Member> {
    set m | m in k.entries
            && (k.expiresAt.None? || at < k.expiresAt.value)
            && (k.entries[m] < 0.0 || now - window < k.entries[m])
  }

  /** The whole second at or before a time that is not negative. */
  ghost predicate WholeSecond(seconds: int, time: real) {
    seconds as real <= time < seconds as real + 1.0
  }

  /** For every key, whatever its entries and however late the pipeline: the caller is limited if
      and only if at least `limit` entries are in the window, and otherwise told exactly how many
      requests remain; the key keeps the window's entries and gains the caller's only when allowed. */
  lemma AnswerExact(k: Key, now: real, at: real, later: real, member: Member, limit: int, window: real)
    ensures var (after, v) := Check(k, now, at, later, member, limit, window);
      var kept := InWindow(k, now, at, window);
      && (v.Limited? <==> |kept| >= limit)
      && (v.Allowed? ==> v.remaining == limit - |kept| - 1)
      && (now + window >= 0.0 ==> WholeSecond(v.resetAt, now + window))
      && (v.Allowed? ==> after.entries.Keys == kept + {member} && after.entries[member] == now)
      && (v.Limited? && window > -10.0 ==> after.entries.Keys == kept - {member})
      && (forall m :: m in after.entries && m != member ==> m in k.entries && after.entries[m] == k.entries[m])
      && after.expiresAt == Some(at + window + 10.0)
  {
    var counted := Counted(k, now, at, window);
    assert counted.Keys == InWindow(k, now, at, window);
    assert |counted| == |counted.Keys|;
  }

  /* ---------- The hint ---------- */

  /** The entries the hint looks at. */
  ghost function Waiting(k: Key, start: real): set<Member> {
    set m | m in k.entries && k.entries[m] >= start
  }

  lemma HintBounds(oldest: real, window: real, later: real)
    ensures var r := RetryAfter(Some(oldest), window, later);
      r >= 1 && oldest + window - later < r as real && (r > 1 ==> r as real - 1.0 <= oldest + window - later)
  {
  }

  /** The hint is the least positive whole number of seconds by which an entry of the window
      surely has left it: some entry leaves before that many seconds, and none a second earlier. */
  lemma HintExact(k: Key, now: real, at: real, later: real, member: Member, limit: int, window: real)
    requires Check(k, now, at, later, member, limit, window).1.Limited?
    ensures var (after, v) := Check(k, now, at, later, member, limit, window);
      var waiting, r := Waiting(after, now - window), v.retryAfter as real;
      && r >= 1.0
      && (waiting != {} ==> exists m :: m in waiting && after.entries[m] + window < later + r)
      && (r > 1.0 ==> waiting != {} && forall m :: m in waiting ==> later + (r - 1.0) <= after.entries[m] + window)
  {
    var (after, v) := Check(k, now, at, later, member, limit, window);
    HintValue(k, Call(now, at, later, member), limit, window);
    var waiting, oldest := Waiting(after, now - window), Oldest(after.entries, now - window);
    if waiting != {} {
      assert IsLowest(after.entries, waiting, oldest.value);
      HintBounds(oldest.value, window, later);
    }
  }

  /** The hint is not a second too long: from a settled key, a caller that waits less than the
      returned seconds minus one, with nobody arriving meanwhile, is limited again. */
  lemma RetryAfterTight(k: Key, last: real, c: Call, limit: int, window: real, retry: real, at: real, again: Member)
    requires limit >= 1 && Settled(k, last, limit, window)
    requires last <= c.now <= c.at <= c.later <= retry <= at <= retry + 10.0 && c.member !in k.entries
    requires var v := Check(k, c.now, c.at, c.later, c.member, limit, window).1;
      v.Limited? && retry < c.later + (v.retryAfter as real - 1.0)
    ensures var after := Check(k, c.now, c.at, c.later, c.member, limit, window).0;
      Check(after, retry, at, at, again, limit, window).1.Limited?
  {
    HintValue(k, c, limit, window);
    RetryExact(k, last, c, limit, window, retry, at);
    var after := Check(k, c.now, c.at, c.later, c.member, limit, window).0;
    HintBounds(Oldest(after.entries, c.now - window).value, window, c.later);
  }

  /* ---------- Checks as steps ---------- */

  /** A check is a pipeline of the interleaved runs, followed by its compensating removal exactly
      when it is limited: the verdict says whether the run admits the caller. */
  lemma CheckIsARun(es: seq<Event>, limit: int, window: real, m: Member, now: real, at: real, later: real)
    requires Executable(START, es, limit, window) && Enabled(Run(START, es, limit, window), Arrive(m, now, at))
    ensures var s := Run(START, es, limit, window);
      var (after, v) := Check(s.key, now, at, later, m, limit, window);
      var t := Next(s, Arrive(m, now, at), limit, window);
      && (v.Allowed? <==> m in t.admitted)
      && (v.Allowed? ==> t.key == after)
      && (v.Limited? ==>
            Enabled(t, Compensate(m, at)) && Next(t, Compensate(m, at), limit, window).key == after
            && Next(t, Compensate(m, at), limit, window).refused.Keys == s.refused.Keys)
  {
    StartFaithful(limit, window, 0.0);
    RunFaithful(START, es, limit, window);
    var s := Run(START, es, limit, window);
    assert EntryFaithful(s, m, window) && MarkOf(s, m).None?;
  }

  /** After any run, a check executed within ten seconds is allowed if and only if the admissions
      and pending rejections it still sees are below the limit, and it is told how many remain. With
      no rejection pending and no newer stamp, those are the admissions of the window. */
  lemma VerdictExact(es: seq<Event>, limit: int, window: real, m: Member, now: real, at: real, later: real)
    requires Executable(START, es, limit, window) && at - now <= 10.0
    requires Enabled(Run(START, es, limit, window), Arrive(m, now, at))
    ensures var s := Run(START, es, limit, window);
      var v := Check(s.key, now, at, later, m, limit, window).1;
      var used := |Visible(s.admitted, now, window)| + |Visible(s.refused, now, window)|;
      && (v.Allowed? <==> used < limit)
      && (v.Allowed? ==> v.remaining == limit - used - 1)
      && (s.refused == map[] && NoneNewer(s.admitted, now) ==> used == |Within(s.admitted, now - window, now)|)
  {
    StartFaithful(limit, window, 0.0);
    RunFaithful(START, es, limit, window);
    var s := Run(START, es, limit, window);
    CountedExactly(s, window, now, at);
    if s.refused == map[] && NoneNewer(s.admitted, now) {
      InOrderVisible(s.admitted, now, window);
      assert Visible(s.refused, now, window) == {};
    }
  }
}
