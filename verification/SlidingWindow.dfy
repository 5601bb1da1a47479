/**
 The per-tenant request limiter: a sliding-window log in a Redis sorted set. One check is
 an atomic pipeline (trim, count, add, expire) and, when it came too late, a separate
 ZREM that takes the optimistic entry out again. Times are seconds of one clock; a
 pipeline carries the time its caller read, which may be earlier than its execution.
 */
module SlidingWindow {
  import opened Wrappers
  import opened Sums

  type Member = nat

  /** The sorted set at one key, with the moment at which Redis drops it. */
  datatype Key = Key(entries: map<Member, real>, expiresAt: Option<real>)

  const EMPTY := Key(map[], None)

  /** What Redis still has at `now`. */
  function Live(k: Key, now: real): map<Member, real> {
    if k.expiresAt.Some? && now >= k.expiresAt.value then map[] else k.entries
  }

  /** ZREMRANGEBYSCORE key 0 start. */
  function Trim(entries: map<Member, real>, start: real): map<Member, real> {
    map m | m in entries && !(0.0 <= entries[m] <= start) :: entries[m]
  }

  /** The pipeline, stamped `now` by its caller and executed `at`: the entries counted, and the
      key afterwards. Redis counts the time to live from the execution. */
  function Counted(k: Key, now: real, at: real, window: real): map<Member, real> {
    Trim(Live(k, at), now - window)
  }

  function Pipeline(k: Key, now: real, at: real, window: real, member: Member): Key {
    Key(Counted(k, now, at, window)[member := now], Some(at + window + 10.0))
  }

  function Zrem(k: Key, at: real, member: Member): Key {
    k.(entries := Live(k, at) - {member})
  }

  ghost predicate IsLowest(entries: map<Member, real>, keys: set<Member>, o: real)
    requires keys <= entries.Keys
  {
    && (exists m :: m in keys && entries[m] == o)
    && (forall m :: m in keys ==> o <= entries[m])
  }

  lemma {:induction false} LowestExists(entries: map<Member, real>, keys: set<Member>) returns (o: real)
    requires keys <= entries.Keys && keys != {}
    ensures IsLowest(entries, keys, o)
    decreases keys
  {
    var m :| m in keys;
    o := entries[m];
    if keys != {m} {
      var rest := LowestExists(entries, keys - {m});
      o := if rest < o then rest else o;
    }
  }

  /** ZRANGEBYSCORE key start +inf LIMIT 0 1: the lowest score from `start` on. */
  ghost function Oldest(entries: map<Member, real>, start: real): (o: Option<real>)
    ensures var keys := set m | m in entries && entries[m] >= start;
      if keys == {} then o == None else o.Some? && IsLowest(entries, keys, o.value)
  {
    var keys := set m | m in entries && entries[m] >= start;
    if keys == {} then None
    else
      assert exists o: real :: IsLowest(entries, keys, o) by { var _ := LowestExists(entries, keys); }
      var o: real :| IsLowest(entries, keys, o);
      Some(o)
  }

  /** Python's `int()`: truncation toward zero. */
  function Truncate(x: real): int {
    if x < 0.0 then -((-x).Floor) else x.Floor
  }

  /** Seconds until the oldest entry leaves the window, at least one. */
  function RetryAfter(oldest: Option<real>, window: real, later: real): int {
    match oldest
    case None => 1
    case Some(score) =>
      var seconds := Truncate(score + window - later) + 1;
      if seconds > 1 then seconds else 1
  }

  datatype Verdict = Allowed(remaining: int, resetAt: int) | Limited(retryAfter: int, resetAt: int)

  /** One check with nothing in between; `later` is the clock read while computing the hint. */
  ghost function Check(k: Key, now: real, at: real, later: real, member: Member, limit: int, window: real)
    : (Key, Verdict)
  {
    var count := |Counted(k, now, at, window)|;
    var added := Pipeline(k, now, at, window, member);
    var resetAt := Truncate(now + window);
    if count >= limit then
      var removed := Zrem(added, at, member);
      (removed, Limited(RetryAfter(Oldest(removed.entries, now - window), window, later), resetAt))
    else
      (added, Allowed(if limit - count - 1 > 0 then limit - count - 1 else 0, resetAt))
  }

  class SortedSet {
    var entries: map<Member, real>
    var expiresAt: Option<real>

    function Value(): Key
      reads this
    {
      Key(entries, expiresAt)
    }

    constructor ()
      ensures Value() == EMPTY
    {
      entries, expiresAt := map[], None;
    }

    method ExecutePipeline(now: real, at: real, window: real, member: Member) returns (count: nat)
      modifies this
      ensures Value() == Pipeline(old(Value()), now, at, window, member)
      ensures count == |Counted(old(Value()), now, at, window)|
    {
      if expiresAt.Some? && at >= expiresAt.value {
        entries := map[];
      }
      entries := map m | m in entries && !(0.0 <= entries[m] <= now - window) :: entries[m];
      count := |entries|;
      entries := entries[member := now];
      expiresAt := Some(at + window + 10.0);
    }

    method Remove(at: real, member: Member)
      modifies this
      ensures Value() == Zrem(old(Value()), at, member)
    {
      if expiresAt.Some? && at >= expiresAt.value {
        entries := map[];
      }
      entries := entries - {member};
    }

    method FirstFrom(start: real) returns (score: Option<real>)
      ensures score == Oldest(entries, start)
    {
      var keys := set m | m in entries && entries[m] >= start;
      ghost var all := keys;
      score := None;
      while keys != {}
        invariant keys <= all <= entries.Keys
        invariant score.None? <==> keys == all
        invariant score.Some? ==> IsLowest(entries, all - keys, score.value)
        decreases keys
      {
        var m :| m in keys;
        assert all - (keys - {m}) == all - keys + {m};
        if score.None? || entries[m] < score.value {
          score := Some(entries[m]);
        }
        keys := keys - {m};
      }
      assert all - keys == all;
    }

    method CheckRateLimit(now: real, at: real, later: real, member: Member, limit: int, window: real)
      returns (v: Verdict)
      modifies this
      ensures (Value(), v) == Check(old(Value()), now, at, later, member, limit, window)
    {
      var count := ExecutePipeline(now, at, window, member);
      if count >= limit {
        Remove(at, member);
        var oldest := FirstFrom(now - window);
        return Limited(RetryAfter(oldest, window, later), Truncate(now + window));
      }
      return Allowed(if limit - count - 1 > 0 then limit - count - 1 else 0, Truncate(now + window));
    }
  }

  /* ---------- Overlapping checks ---------- */

  /** What is known of one entry: its caller's time, the time of its pipeline, and the newest
      caller's time among the pipelines executed after it. */
  datatype Mark = Mark(stamp: real, done: real, newest: Option<real>)

  type Marks = map<Member, Mark>

  /** `admitted` is every admission ever; `refused` the rejected entries whose ZREM is still to run. */
  datatype Sys = Sys(key: Key, now: real, admitted: Marks, refused: Marks, seen: set<Member>)

  datatype Event =
    | Arrive(member: Member, stamp: real, at: real)
    | Compensate(member: Member, at: real)

  predicate Enabled(s: Sys, e: Event) {
    match e
    case Arrive(m, stamp, at) => m !in s.seen && 0.0 <= stamp <= at && at >= s.now
    case Compensate(m, at) => m in s.refused && at >= s.now
  }

  function Newer(o: Option<real>, stamp: real): Option<real> {
    if o.Some? && o.value >= stamp then o else Some(stamp)
  }

  function Aged(marks: Marks, stamp: real): Marks {
    map m | m in marks :: marks[m].(newest := Newer(marks[m].newest, stamp))
  }

  function Next(s: Sys, e: Event, limit: int, window: real): Sys {
    match e
    case Arrive(m, stamp, at) =>
      var ok := |Counted(s.key, stamp, at, window)| < limit;
      var admitted, refused, mark := Aged(s.admitted, stamp), Aged(s.refused, stamp), Mark(stamp, at, None);
      Sys(Pipeline(s.key, stamp, at, window, m), at,
          if ok then admitted[m := mark] else admitted,
          if ok then refused else refused[m := mark],
          s.seen + {m})
    case Compensate(m, at) =>
      Sys(Zrem(s.key, at, m), at, s.admitted, s.refused - {m}, s.seen)
  }

  ghost predicate Executable(s: Sys, es: seq<Event>, limit: int, window: real)
    decreases |es|
  {
    es == [] || (Enabled(s, es[0]) && Executable(Next(s, es[0], limit, window), es[1..], limit, window))
  }

  ghost function Run(s: Sys, es: seq<Event>, limit: int, window: real): Sys
    decreases |es|
  {
    if es == [] then s else Run(Next(s, es[0], limit, window), es[1..], limit, window)
  }

  /** Every pipeline is executed at most `d` seconds after its caller read the clock. */
  ghost predicate LagAtMost(es: seq<Event>, d: real) {
    forall i :: 0 <= i < |es| && es[i].Arrive? ==> es[i].at - es[i].stamp <= d
  }

  /** Pipelines are executed in the order of their stamps. */
  ghost predicate InOrder(es: seq<Event>) {
    forall i, j :: 0 <= i < j < |es| && es[i].Arrive? && es[j].Arrive? ==> es[i].stamp <= es[j].stamp
  }

  const START := Sys(EMPTY, 0.0, map[], map[], {})

  /** The entries stamped in the half-open interval (a, b]. */
  ghost function Within(marks: Marks, a: real, b: real): set<Member> {
    set m | m in marks && a < marks[m].stamp <= b
  }

  /** No later pipeline has trimmed the entry. */
  predicate Untrimmed(mark: Mark, window: real) {
    mark.newest.None? || mark.stamp > mark.newest.value - window
  }

  /** The entries that a pipeline stamped `stamp` still sees. */
  ghost function Visible(marks: Marks, stamp: real, window: real): set<Member> {
    set m | m in marks && marks[m].stamp > stamp - window && Untrimmed(marks[m], window)
  }

  /** At most `limit` admissions in the half-open interval of length `span` after `a`. */
  ghost predicate RoomAfter(marks: Marks, a: real, limit: int, span: real) {
    |Within(marks, a, a + span)| <= if limit < 0 then 0 else limit
  }

  ghost predicate Bounded(s: Sys, limit: int, span: real) {
    forall a: real :: RoomAfter(s.admitted, a, limit, span)
  }

  ghost function MarkOf(s: Sys, m: Member): Option<Mark> {
    if m in s.admitted then Some(s.admitted[m])
    else if m in s.refused then Some(s.refused[m])
    else None
  }

  ghost predicate EntryFaithful(s: Sys, m: Member, window: real) {
    var o := MarkOf(s, m);
    && !(m in s.admitted && m in s.refused)
    && (o.None? ==> m !in s.key.entries)
    && (o.Some? ==>
          var mark := o.value;
          && 0.0 <= mark.stamp <= mark.done <= s.now
          && (mark.newest.Some? ==> mark.newest.value <= s.now)
          && (Untrimmed(mark, window) && s.now < mark.done + window + 10.0 ==> m in s.key.entries)
          && (m in s.key.entries ==>
                && Untrimmed(mark, window)
                && s.key.entries[m] == mark.stamp
                && s.key.expiresAt.Some?
                && mark.done <= s.key.expiresAt.value - window - 10.0))
  }

  /** The set holds exactly the admitted and not yet compensated entries nobody has trimmed. */
  ghost predicate SetFaithful(s: Sys, window: real) {
    && s.now >= 0.0
    && (forall m {:trigger MarkOf(s, m)} :: MarkOf(s, m).Some? ==> m in s.seen)
    && (forall m {:trigger EntryFaithful(s, m, window)} :: EntryFaithful(s, m, window))
  }

  /** Expiry drops nothing that the trim would have kept: it never changes the decision of a
      pipeline that is executed within ten seconds. */
  lemma ExpiryNeverDecides(s: Sys, window: real, stamp: real, at: real)
    requires SetFaithful(s, window) && at >= s.now && at - stamp <= 10.0
    ensures Counted(s.key, stamp, at, window) == Trim(s.key.entries, stamp - window)
  {
    forall m ensures m in Counted(s.key, stamp, at, window) <==> m in Trim(s.key.entries, stamp - window) {
      assert EntryFaithful(s, m, window);
    }
  }

  /** What a pipeline counts: the admissions it still sees and the rejected entries it sees
      whose compensation is still to come. */
  lemma CountedExactly(s: Sys, window: real, stamp: real, at: real)
    requires SetFaithful(s, window) && at >= s.now && at - stamp <= 10.0
    ensures |Counted(s.key, stamp, at, window)|
        == |Visible(s.admitted, stamp, window)| + |Visible(s.refused, stamp, window)|
  {
    var kept := Counted(s.key, stamp, at, window);
    var a, r := Visible(s.admitted, stamp, window), Visible(s.refused, stamp, window);
    ExpiryNeverDecides(s, window, stamp, at);
    forall m ensures (m in kept <==> m in a + r) && !(m in a && m in r) {
      assert EntryFaithful(s, m, window);
    }
    SplitSize(kept, a, r);
  }

  lemma SplitSize(kept: map<Member, real>, a: set<Member>, r: set<Member>)
    requires forall m :: (m in kept <==> m in a + r) && !(m in a && m in r)
    ensures |kept| == |a| + |r|
  {
    assert kept.Keys == a + r;
    assert a !! r;
    assert |kept.Keys| == |kept|;
  }

  lemma ArriveKeepsSet(s: Sys, m: Member, stamp: real, at: real, limit: int, window: real)
    requires SetFaithful(s, window) && Enabled(s, Arrive(m, stamp, at))
    ensures SetFaithful(Next(s, Arrive(m, stamp, at), limit, window), window)
  {
    assert MarkOf(s, m).None?;
    var t := Next(s, Arrive(m, stamp, at), limit, window);
    forall x ensures EntryFaithful(t, x, window) && (MarkOf(t, x).Some? ==> x in t.seen) {
      assert EntryFaithful(s, x, window) && (MarkOf(s, x).Some? ==> x in s.seen);
    }
  }

  lemma CompensateKeepsSet(s: Sys, m: Member, at: real, limit: int, window: real)
    requires SetFaithful(s, window) && Enabled(s, Compensate(m, at))
    ensures SetFaithful(Next(s, Compensate(m, at), limit, window), window)
  {
    var t := Next(s, Compensate(m, at), limit, window);
    forall x ensures EntryFaithful(t, x, window) && (MarkOf(t, x).Some? ==> x in t.seen) {
      assert EntryFaithful(s, x, window) && (MarkOf(s, x).Some? ==> x in s.seen);
    }
  }

  /** Ageing changes no stamp. */
  lemma AgedWithin(marks: Marks, stamp: real, a: real, b: real)
    ensures Within(Aged(marks, stamp), a, b) == Within(marks, a, b)
  {
  }

  lemma AddedWithin(marks: Marks, m: Member, mark: Mark, a: real, b: real)
    requires m !in marks
    ensures Within(marks[m := mark], a, b) == Within(marks, a, b) + if a < mark.stamp <= b then {m} else {}
  {
  }

  /** A pipeline with lag at most `d` counts every admission of an interval of length
      `window - d` that contains its own stamp. */
  lemma StillCounted(s: Sys, stamp: real, at: real, window: real, d: real, a: real)
    requires SetFaithful(s, window) && at >= s.now && 0.0 <= stamp <= at && at - stamp <= d
    requires a < stamp <= a + window - d
    ensures Within(s.admitted, a, a + window - d) <= Counted(s.key, stamp, at, window).Keys
  {
    forall x | x in Within(s.admitted, a, a + window - d) ensures x in Counted(s.key, stamp, at, window) {
      assert EntryFaithful(s, x, window);
    }
  }

  lemma ArriveKeepsRoom(s: Sys, m: Member, stamp: real, at: real, limit: int, window: real, d: real, a: real)
    requires SetFaithful(s, window) && Enabled(s, Arrive(m, stamp, at)) && at - stamp <= d
    requires RoomAfter(s.admitted, a, limit, window - d)
    ensures RoomAfter(Next(s, Arrive(m, stamp, at), limit, window).admitted, a, limit, window - d)
  {
    assert MarkOf(s, m).None?;
    var b := a + (window - d);
    var before := Within(s.admitted, a, b);
    AgedWithin(s.admitted, stamp, a, b);
    AddedWithin(Aged(s.admitted, stamp), m, Mark(stamp, at, None), a, b);
    var counted := Counted(s.key, stamp, at, window);
    if |counted| < limit && a < stamp <= b {
      StillCounted(s, stamp, at, window, d, a);
      SubsetSize(before, counted.Keys);
      assert m !in before;
    }
  }

  lemma {:induction false} RunKeeps(s: Sys, es: seq<Event>, limit: int, window: real, d: real)
    requires SetFaithful(s, window) && Bounded(s, limit, window - d)
    requires Executable(s, es, limit, window) && LagAtMost(es, d)
    ensures SetFaithful(Run(s, es, limit, window), window)
    ensures Bounded(Run(s, es, limit, window), limit, window - d)
    decreases |es|
  {
    if es != [] {
      var t, span := Next(s, es[0], limit, window), window - d;
      match es[0] {
        case Arrive(m, stamp, at) =>
          ArriveKeepsSet(s, m, stamp, at, limit, window);
          forall a: real ensures RoomAfter(t.admitted, a, limit, span) {
            assert RoomAfter(s.admitted, a, limit, span);
            ArriveKeepsRoom(s, m, stamp, at, limit, window, d, a);
          }
        case Compensate(m, at) =>
          CompensateKeepsSet(s, m, at, limit, window);
          forall a: real ensures RoomAfter(t.admitted, a, limit, span) {
            assert RoomAfter(s.admitted, a, limit, span);
          }
      }
      assert LagAtMost(es[1..], d);
      RunKeeps(t, es[1..], limit, window, d);
    }
  }

  lemma {:induction false} RunFaithful(s: Sys, es: seq<Event>, limit: int, window: real)
    requires SetFaithful(s, window) && Executable(s, es, limit, window)
    ensures SetFaithful(Run(s, es, limit, window), window)
    decreases |es|
  {
    if es != [] {
      match es[0] {
        case Arrive(m, stamp, at) => ArriveKeepsSet(s, m, stamp, at, limit, window);
        case Compensate(m, at) => CompensateKeepsSet(s, m, at, limit, window);
      }
      RunFaithful(Next(s, es[0], limit, window), es[1..], limit, window);
    }
  }

  lemma StartFaithful(limit: int, window: real, span: real)
    ensures SetFaithful(START, window) && Bounded(START, limit, span)
  {
    forall a: real ensures RoomAfter(START.admitted, a, limit, span) {
      assert Within(START.admitted, a, a + span) == {};
    }
  }

  /** Sliding-window safety: however pipelines and compensating removals interleave, when
      every pipeline is executed at most `d` seconds after its caller read the clock, every
      half-open interval of `window - d` seconds holds at most `limit` admissions. */
  lemma WindowSafety(es: seq<Event>, limit: int, window: real, d: real, a: real)
    requires Executable(START, es, limit, window) && LagAtMost(es, d)
    ensures |Within(Run(START, es, limit, window).admitted, a, a + (window - d))| <= if limit < 0 then 0 else limit
  {
    StartFaithful(limit, window, window - d);
    RunKeeps(START, es, limit, window, d);
    assert RoomAfter(Run(START, es, limit, window).admitted, a, limit, window - d);
  }

  /** Every pipeline so far was stamped no later than `stamp`. */
  ghost predicate NoneNewer(marks: Marks, stamp: real) {
    forall m :: m in marks ==> marks[m].stamp <= stamp && (marks[m].newest.Some? ==> marks[m].newest.value <= stamp)
  }

  lemma InOrderVisible(marks: Marks, stamp: real, window: real)
    requires NoneNewer(marks, stamp)
    ensures Visible(marks, stamp, window) == Within(marks, stamp - window, stamp)
  {
  }

  /** A rejection is never arbitrary: a pipeline executed within ten seconds admits exactly
      when the admissions and pending rejections it still sees are fewer than the limit; if it
      is the newest so far, those are the entries of the window that ends at its stamp. */
  lemma DecisionExact(es: seq<Event>, limit: int, window: real, m: Member, stamp: real, at: real)
    requires Executable(START, es, limit, window) && at - stamp <= 10.0
    requires Enabled(Run(START, es, limit, window), Arrive(m, stamp, at))
    ensures var s := Run(START, es, limit, window);
      m in Next(s, Arrive(m, stamp, at), limit, window).admitted
      <==> |Visible(s.admitted, stamp, window)| + |Visible(s.refused, stamp, window)| < limit
    ensures var s := Run(START, es, limit, window); var start := stamp - window;
      NoneNewer(s.admitted, stamp) && NoneNewer(s.refused, stamp) ==>
        (m in Next(s, Arrive(m, stamp, at), limit, window).admitted
         <==> |Within(s.admitted, start, stamp)| + |Within(s.refused, start, stamp)| < limit)
  {
    StartFaithful(limit, window, 0.0);
    RunFaithful(START, es, limit, window);
    var s := Run(START, es, limit, window);
    CountedExactly(s, window, stamp, at);
    assert MarkOf(s, m).None?;
    if NoneNewer(s.admitted, stamp) && NoneNewer(s.refused, stamp) {
      InOrderVisible(s.admitted, stamp, window);
      InOrderVisible(s.refused, stamp, window);
    }
  }

  /* ---------- The retry hint of sequential checks ---------- */

  datatype Call = Call(now: real, at: real, later: real, member: Member)

  ghost predicate Sequential(k: Key, last: real, calls: seq<Call>, limit: int, window: real)
    decreases |calls|
  {
    calls == [] ||
    (&& last <= calls[0].now <= calls[0].at <= calls[0].later
     && calls[0].member !in k.entries
     && Sequential(Check(k, calls[0].now, calls[0].at, calls[0].later, calls[0].member, limit, window).0,
                   calls[0].later, calls[1..], limit, window))
  }

  ghost function KeyAfter(k: Key, calls: seq<Call>, limit: int, window: real): Key
    decreases |calls|
  {
    if calls == [] then k
    else KeyAfter(Check(k, calls[0].now, calls[0].at, calls[0].later, calls[0].member, limit, window).0, calls[1..],
                  limit, window)
  }

  ghost function TimeAfter(last: real, calls: seq<Call>): real {
    if calls == [] then last else calls[|calls| - 1].later
  }

  ghost predicate Settled(k: Key, last: real, limit: int, window: real) {
    && last >= 0.0
    && |k.entries| <= limit
    && (forall m :: m in k.entries ==> 0.0 <= k.entries[m] <= last)
    && (k.expiresAt.None? ==> k.entries == map[])
    && (k.expiresAt.Some? ==>
          forall m :: m in k.entries ==> k.entries[m] <= k.expiresAt.value - window - 10.0)
  }

  lemma SettledCounted(k: Key, last: real, limit: int, window: real, now: real, at: real)
    requires Settled(k, last, limit, window)
    ensures |Counted(k, now, at, window)| <= |Trim(k.entries, now - window)| <= |k.entries|
    ensures last <= now <= at <= now + 10.0 ==> Counted(k, now, at, window) == Trim(k.entries, now - window)
  {
    SubsetSize(Trim(k.entries, now - window).Keys, k.entries.Keys);
    SubsetSize(Counted(k, now, at, window).Keys, Trim(k.entries, now - window).Keys);
  }

  lemma CheckSettles(k: Key, last: real, c: Call, limit: int, window: real)
    requires Settled(k, last, limit, window) && last <= c.now <= c.at <= c.later && c.member !in k.entries
    ensures Settled(Check(k, c.now, c.at, c.later, c.member, limit, window).0, c.later, limit, window)
  {
    SettledCounted(k, last, limit, window, c.now, c.at);
    var kept := Counted(k, c.now, c.at, window);
    assert c.member !in kept;
    assert |kept[c.member := c.now]| == |kept| + 1;
    assert kept[c.member := c.now] - {c.member} == kept;
  }

  lemma {:induction false} SequentialSettles(k: Key, last: real, calls: seq<Call>, limit: int, window: real)
    requires Settled(k, last, limit, window) && Sequential(k, last, calls, limit, window)
    ensures Settled(KeyAfter(k, calls, limit, window), TimeAfter(last, calls), limit, window)
    decreases |calls|
  {
    if calls != [] {
      CheckSettles(k, last, calls[0], limit, window);
      SequentialSettles(Check(k, calls[0].now, calls[0].at, calls[0].later, calls[0].member, limit, window).0,
                        calls[0].later, calls[1..], limit, window);
    }
  }

  lemma HintCovers(score: real, window: real, later: real, retry: real)
    requires retry >= later + RetryAfter(Some(score), window, later) as real
    ensures retry >= score + window
  {
  }

  /** A trim removes something exactly when it reaches the oldest entry. */
  lemma TrimReachesOldest(entries: map<Member, real>, from: real, start: real)
    requires entries != map[] && forall m :: m in entries ==> 0.0 <= entries[m] && from <= entries[m]
    ensures var o := Oldest(entries, from);
      o.Some? && (|Trim(entries, start)| < |entries| <==> start >= o.value)
  {
    var keys := set m | m in entries && entries[m] >= from;
    assert keys == entries.Keys;
    var o := Oldest(entries, from);
    var left := Trim(entries, start);
    assert |left| == |left.Keys| && |entries| == |entries.Keys|;
    assert IsLowest(entries, keys, o.value);
    var first :| first in entries && entries[first] == o.value;
    if start >= o.value {
      assert first !in left;
      SubsetSize(left.Keys, entries.Keys - {first});
    } else {
      assert left == entries;
    }
  }

  /** A rejected check leaves exactly the window's entries, as many as the limit. */
  lemma RejectionLeaves(k: Key, last: real, c: Call, limit: int, window: real)
    requires Settled(k, last, limit, window) && last <= c.now <= c.at <= c.later && c.member !in k.entries
    requires |Counted(k, c.now, c.at, window)| >= limit
    ensures var after := Check(k, c.now, c.at, c.later, c.member, limit, window).0.entries;
      && |after| == limit
      && forall m :: m in after ==> 0.0 <= after[m] && after[m] >= c.now - window
  {
    SettledCounted(k, last, limit, window, c.now, c.at);
    var kept := Counted(k, c.now, c.at, window);
    assert kept[c.member := c.now] - {c.member} == kept;
  }

  /** A full key gives room to a retry exactly when its oldest entry has left the window. */
  lemma FullKeyFrees(k: Key, start: real, last: real, limit: int, window: real, retry: real, at: real)
    requires limit >= 1 && Settled(k, last, limit, window) && last <= retry <= at
    requires |k.entries| == limit && forall m :: m in k.entries ==> k.entries[m] >= start
    ensures var oldest := Oldest(k.entries, start);
      && oldest.Some?
      && (retry >= oldest.value + window ==> |Counted(k, retry, at, window)| < limit)
      && (at <= retry + 10.0 ==> (|Counted(k, retry, at, window)| < limit <==> retry >= oldest.value + window))
  {
    SettledCounted(k, last, limit, window, retry, at);
    TrimReachesOldest(k.entries, start, retry - window);
  }

  /** From a settled key: after a rejection, a retry with nobody arriving meanwhile, and
      executed within ten seconds, is admitted exactly once the oldest entry has left the window. */
  lemma RetryExact(k: Key, last: real, c: Call, limit: int, window: real, retry: real, at: real)
    requires limit >= 1 && Settled(k, last, limit, window)
    requires last <= c.now <= c.at <= c.later <= retry <= at <= retry + 10.0 && c.member !in k.entries
    requires |Counted(k, c.now, c.at, window)| >= limit
    ensures var after := Check(k, c.now, c.at, c.later, c.member, limit, window).0;
      var oldest := Oldest(after.entries, c.now - window);
      oldest.Some? && (|Counted(after, retry, at, window)| < limit <==> retry >= oldest.value + window)
  {
    RejectionLeaves(k, last, c, limit, window);
    CheckSettles(k, last, c, limit, window);
    FullKeyFrees(Check(k, c.now, c.at, c.later, c.member, limit, window).0, c.now - window, c.later, limit, window,
                 retry, at);
  }

  /** The hint is sufficient: after any sequential run, a rejected caller that waits the
      returned seconds, with nobody arriving meanwhile, is admitted however late its pipeline
      is executed. */
  lemma RetryAfterSuffices(calls: seq<Call>, c: Call, limit: int, window: real, retry: real, at: real, again: Member)
    requires limit >= 1
    requires Sequential(EMPTY, 0.0, calls, limit, window)
    requires TimeAfter(0.0, calls) <= c.now <= c.at <= c.later &&
        c.member !in KeyAfter(EMPTY, calls, limit, window).entries
    requires var v := Check(KeyAfter(EMPTY, calls, limit, window), c.now, c.at, c.later, c.member, limit, window).1;
      v.Limited? && retry >= c.later + v.retryAfter as real
    requires at >= retry
    ensures var k := Check(KeyAfter(EMPTY, calls, limit, window), c.now, c.at, c.later, c.member, limit, window).0;
      Check(k, retry, at, at, again, limit, window).1.Allowed?
  {
    SequentialSettles(EMPTY, 0.0, calls, limit, window);
    HintSuffices(KeyAfter(EMPTY, calls, limit, window), TimeAfter(0.0, calls), c, limit, window, retry, at);
  }

  lemma HintValue(k: Key, c: Call, limit: int, window: real)
    requires Check(k, c.now, c.at, c.later, c.member, limit, window).1.Limited?
    ensures |Counted(k, c.now, c.at, window)| >= limit
    ensures var (after, v) := Check(k, c.now, c.at, c.later, c.member, limit, window);
      v.retryAfter == RetryAfter(Oldest(after.entries, c.now - window), window, c.later)
  {
  }

  lemma HintSuffices(k: Key, last: real, c: Call, limit: int, window: real, retry: real, at: real)
    requires limit >= 1 && Settled(k, last, limit, window)
    requires last <= c.now <= c.at <= c.later && c.member !in k.entries
    requires var v := Check(k, c.now, c.at, c.later, c.member, limit, window).1;
      v.Limited? && retry >= c.later + v.retryAfter as real
    requires at >= retry
    ensures |Counted(Check(k, c.now, c.at, c.later, c.member, limit, window).0, retry, at, window)| < limit
  {
    var after := Check(k, c.now, c.at, c.later, c.member, limit, window).0;
    var oldest := Oldest(after.entries, c.now - window);
    HintValue(k, c, limit, window);
    assert RetryAfter(oldest, window, c.later) >= 1;
    RejectionLeaves(k, last, c, limit, window);
    CheckSettles(k, last, c, limit, window);
    FullKeyFrees(after, c.now - window, c.later, limit, window, retry, at);
    HintCovers(oldest.value, window, c.later, retry);
  }
}
