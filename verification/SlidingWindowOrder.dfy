/** The sliding window when pipelines are executed in the order of their callers' clock readings. */
module SlidingWindowOrder {
  import opened Wrappers
  import opened Sums
  import opened SlidingWindow
  import opened SlidingWindowLag

  /** All pipelines are stamped `low` or later. */
  ghost predicate From(es: seq<Event>, low: real) {
    forall i :: 0 <= i < |es| && es[i].Arrive? ==> low <= es[i].stamp
  }

  ghost predicate Past(s: Sys, low: real) {
    NoneNewer(s.admitted, low) && NoneNewer(s.refused, low)
  }

  /* ---------- The full window is safe ---------- */

  /** A pipeline that is the newest so far and at most ten seconds late counts every admission of
      a window that contains its stamp. */
  lemma WindowCounted(s: Sys, stamp: real, at: real, window: real, a: real)
    requires SetFaithful(s, window) && Past(s, stamp)
    requires at >= s.now && 0.0 <= stamp <= at && at - stamp <= 10.0
    requires a < stamp <= a + window
    ensures Within(s.admitted, a, a + window) <= Counted(s.key, stamp, at, window).Keys
  {
    forall x | x in Within(s.admitted, a, a + window) ensures x in Counted(s.key, stamp, at, window) {
      assert EntryFaithful(s, x, window);
    }
  }

  lemma ArriveKeepsWindow(s: Sys, m: Member, stamp: real, at: real, limit: int, window: real, a: real)
    requires SetFaithful(s, window) && Past(s, stamp)
    requires Enabled(s, Arrive(m, stamp, at)) && at - stamp <= 10.0
    requires RoomAfter(s.admitted, a, limit, window)
    ensures RoomAfter(Next(s, Arrive(m, stamp, at), limit, window).admitted, a, limit, window)
  {
    assert MarkOf(s, m).None?;
    var b := a + window;
    var before, counted := Within(s.admitted, a, b), Counted(s.key, stamp, at, window);
    AgedWithin(s.admitted, stamp, a, b);
    AddedWithin(Aged(s.admitted, stamp), m, Mark(stamp, at, None), a, b);
    if |counted| < limit && a < stamp <= b {
      WindowCounted(s, stamp, at, window, a);
      SubsetSize(before, counted.Keys);
      assert m !in before;
    }
  }

  lemma ArriveMovesPast(s: Sys, m: Member, stamp: real, at: real, limit: int, window: real, low: real)
    requires Past(s, low) && low <= stamp
    ensures Past(s, stamp) && Past(Next(s, Arrive(m, stamp, at), limit, window), stamp)
  {
  }

  lemma OrderTail(es: seq<Event>)
    requires es != [] && InOrder(es)
    ensures InOrder(es[1..]) && (es[0].Arrive? ==> From(es[1..], es[0].stamp))
  {
  }

  lemma {:induction false} RunKeepsWindow(s: Sys, es: seq<Event>, limit: int, window: real, low: real)
    requires SetFaithful(s, window) && Bounded(s, limit, window) && Past(s, low)
    requires Executable(s, es, limit, window) && LagAtMost(es, 10.0) && InOrder(es) && From(es, low)
    ensures Bounded(Run(s, es, limit, window), limit, window)
    decreases |es|
  {
    if es != [] {
      var t := Next(s, es[0], limit, window);
      OrderTail(es);
      assert LagAtMost(es[1..], 10.0) && From(es[1..], low);
      match es[0] {
        case Arrive(m, stamp, at) =>
          ArriveKeepsSet(s, m, stamp, at, limit, window);
          ArriveMovesPast(s, m, stamp, at, limit, window, low);
          forall a: real ensures RoomAfter(t.admitted, a, limit, window) {
            assert RoomAfter(s.admitted, a, limit, window);
            ArriveKeepsWindow(s, m, stamp, at, limit, window, a);
          }
          RunKeepsWindow(t, es[1..], limit, window, stamp);
        case Compensate(m, at) =>
          CompensateKeepsSet(s, m, at, limit, window);
          forall a: real ensures RoomAfter(t.admitted, a, limit, window) {
            assert RoomAfter(s.admitted, a, limit, window);
          }
          RunKeepsWindow(t, es[1..], limit, window, low);
      }
    }
  }

  /** Sliding-window safety for pipelines executed in the order of their stamps and within ten
      seconds: however they and the compensating removals interleave, every half-open interval
      of the full window holds at most `limit` admissions. */
  lemma OrderedWindowSafety(es: seq<Event>, limit: int, window: real, a: real)
    requires Executable(START, es, limit, window) && LagAtMost(es, 10.0) && InOrder(es)
    ensures |Within(Run(START, es, limit, window).admitted, a, a + window)| <= if limit < 0 then 0 else limit
  {
    StartFaithful(limit, window, window);
    StampsFromZero(START, es, limit, window);
    RunKeepsWindow(START, es, limit, window, 0.0);
    assert RoomAfter(Run(START, es, limit, window).admitted, a, limit, window);
  }

  lemma {:induction false} StampsFromZero(s: Sys, es: seq<Event>, limit: int, window: real)
    requires Executable(s, es, limit, window)
    ensures From(es, 0.0)
    decreases |es|
  {
    if es != [] {
      StampsFromZero(Next(s, es[0], limit, window), es[1..], limit, window);
      forall i | 0 <= i < |es| && es[i].Arrive? ensures 0.0 <= es[i].stamp {
        if i > 0 { assert es[i] == es[1..][i - 1]; }
      }
    }
  }

  /* ---------- Later than ten seconds ---------- */

  /** The key has expired, although the window of the late pipeline still holds the members of time 0. */
  lemma ExpiredRun(limit: nat, window: real, d: real, b: real) returns (es: seq<Event>, t: Sys)
    requires limit >= 1 && window > 0.0 && 0.0 <= b <= window + 10.0 && window + 10.0 - b <= d
    ensures Ends(es, t, limit, window, d) && Overfull(t.admitted, limit, limit, b) && OrderedUpTo(es, b)
  {
    var at := window + 10.0;
    var before, s := Fill(limit, limit, window, d);
    assert Counted(s.key, b, at, window) == map[];
    OrderedAppend(before, Arrive(limit, b, at), 0.0);
    es, t := Append(before, s, Arrive(limit, b, at), limit, window, d);
    OneMore(s.admitted, limit, limit, b, Mark(b, at, None));
  }

  ghost predicate OrderedKept(es: seq<Event>, limit: int, window: real, d: real, a: real) {
    InOrder(es) ==> Kept(es, limit, window, d, window, a)
  }

  lemma OrderedBreaks(limit: nat, window: real, d: real) returns (es: seq<Event>, a: real)
    requires limit >= 1 && window > 0.0 && d > 10.0
    ensures !OrderedKept(es, limit, window, d, a)
  {
    var b := if window + 10.0 > d then window + 10.0 - d else 0.0;
    var t;
    es, t := ExpiredRun(limit, window, d, b);
    a := Breaks(es, t, limit, window, d, window, limit, b);
  }

  lemma OrderedSuffices(es: seq<Event>, limit: int, window: real, d: real, a: real)
    requires d <= 10.0 || window <= 0.0 || limit <= 0
    ensures OrderedKept(es, limit, window, d, a)
  {
    if InOrder(es) && Executable(START, es, limit, window) && LagAtMost(es, d) {
      if d <= 10.0 {
        assert LagAtMost(es, 10.0);
        OrderedWindowSafety(es, limit, window, a);
      } else {
        NarrowKept(es, limit, window, d, window, a);
      }
    }
  }

  /** The exact condition for the full window: when pipelines are executed in the order of their
      stamps and at most `d` seconds late, every half-open interval of the window holds at most
      `limit` admissions in all runs if and only if `d` is at most ten seconds, the slack the
      source adds to the time to live (or there is no window, or nothing is ever admitted). */
  lemma OrderedWindowExact(limit: int, window: real, d: real)
    ensures (forall es, a: real :: OrderedKept(es, limit, window, d, a)) <==> d <= 10.0 || window <= 0.0 || limit <= 0
  {
    if d <= 10.0 || window <= 0.0 || limit <= 0 {
      forall es, a: real ensures OrderedKept(es, limit, window, d, a) {
        OrderedSuffices(es, limit, window, d, a);
      }
    } else {
      var es, a := OrderedBreaks(limit, window, d);
      assert !OrderedKept(es, limit, window, d, a);
    }
  }
}
