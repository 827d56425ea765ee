/** Windows add up, grow with their bounds, and satisfy the accounting bounds, whatever the events are. */
module WindowTheorems {
  import opened Words
  import opened Intervals
  import opened Observations
  import opened Engine
  import opened Windows

  // ----- tumbling windows -----

  /** Component by component. */
  ghost predicate Adds(v: UtilizationVector, a: UtilizationVector, b: UtilizationVector) {
    && v.windowSpan == a.windowSpan + b.windowSpan
    && v.computeBusy == a.computeBusy + b.computeBusy
    && v.usefulCompute == a.usefulCompute + b.usefulCompute
    && v.nonUsefulCompute == a.nonUsefulCompute + b.nonUsefulCompute
    && v.necessaryOverhead == a.necessaryOverhead + b.necessaryOverhead
    && v.retry == a.retry + b.retry
    && v.memoryPressure == a.memoryPressure + b.memoryPressure
    && v.transferActive == a.transferActive + b.transferActive
    && v.computeIdle == a.computeIdle + b.computeIdle
    && v.reservedIdle == a.reservedIdle + b.reservedIdle
    && v.residencyIdle == a.residencyIdle + b.residencyIdle
    && v.fenced == a.fenced + b.fenced
    && v.unavailable == a.unavailable + b.unavailable
    && v.strandedCapacity == a.strandedCapacity + b.strandedCapacity
    && v.queueWait == a.queueWait + b.queueWait
    && v.dependencyWait == a.dependencyWait + b.dependencyWait
    && v.waitingTransfer == a.waitingTransfer + b.waitingTransfer
    && v.waitingMemory == a.waitingMemory + b.waitingMemory
    && v.recoveryWait == a.recoveryWait + b.recoveryWait
    && v.computeTransferOverlap == a.computeTransferOverlap + b.computeTransferOverlap
  }

  lemma TicksAdd(events: seq<EventSpan>, cats: Categories, a: Tick, b: Tick, c: Tick)
    requires a <= b <= c
    ensures Ticks(events, cats, Interval(a, b)) !! Ticks(events, cats, Interval(b, c))
    ensures Ticks(events, cats, Interval(a, c))
         == Ticks(events, cats, Interval(a, b)) + Ticks(events, cats, Interval(b, c))
  {
  }

  lemma TimeAdds(events: seq<EventSpan>, cats: Categories, a: Tick, b: Tick, c: Tick)
    requires a <= b <= c
    ensures Time(events, cats, Interval(a, c))
         == Time(events, cats, Interval(a, b)) + Time(events, cats, Interval(b, c))
  {
    TicksAdd(events, cats, a, b, c);
    DisjointUnion(Ticks(events, cats, Interval(a, b)), Ticks(events, cats, Interval(b, c)));
  }

  lemma OverlapAdds(events: seq<EventSpan>, a: Tick, b: Tick, c: Tick)
    requires a <= b <= c
    ensures OverlapTime(events, Interval(a, c))
         == OverlapTime(events, Interval(a, b)) + OverlapTime(events, Interval(b, c))
  {
    hide Ticks;
    TicksAdd(events, BUSY, a, b, c);
    TicksAdd(events, Only(TRANSFER_ACTIVE), a, b, c);
    TicksApart(events, BUSY, Only(TRANSFER_ACTIVE), a, b, c);
    TicksApart(events, Only(TRANSFER_ACTIVE), BUSY, a, b, c);
    CommonParts(
      Ticks(events, BUSY, Interval(a, b)), Ticks(events, BUSY, Interval(b, c)),
      Ticks(events, Only(TRANSFER_ACTIVE), Interval(a, b)), Ticks(events, Only(TRANSFER_ACTIVE), Interval(b, c)));
  }

  lemma TicksApart(events: seq<EventSpan>, one: Categories, other: Categories, a: Tick, b: Tick, c: Tick)
    ensures Ticks(events, one, Interval(a, b)) !! Ticks(events, other, Interval(b, c))
  {
  }

  lemma CommonParts(x: set<int>, x': set<int>, y: set<int>, y': set<int>)
    requires x !! y' && y !! x' && x !! x'
    ensures |(x + x') * (y + y')| == |x * y| + |x' * y'|
  {
    assert (x + x') * (y + y') == x * y + x' * y';
    DisjointUnion(x * y, x' * y');
  }

  /** Splitting a window anywhere splits every component, overlap included. */
  lemma TumblingWindowsAdd(events: seq<EventSpan>, a: Tick, b: Tick, c: Tick)
    requires a <= b <= c
    ensures Adds(WindowOf(events, Interval(a, c)), WindowOf(events, Interval(a, b)), WindowOf(events, Interval(b, c)))
  {
    hide Time;
    hide OverlapTime;
    TimeAdds(events, BUSY, a, b, c);
    OverlapAdds(events, a, b, c);
    forall k: u8
      ensures Time(events, Only(k), Interval(a, c))
           == Time(events, Only(k), Interval(a, b)) + Time(events, Only(k), Interval(b, c))
    {
      TimeAdds(events, Only(k), a, b, c);
    }
  }

  // ----- monotonicity -----

  ghost predicate AtMost(v: UtilizationVector, w: UtilizationVector) {
    && v.windowSpan <= w.windowSpan
    && v.computeBusy <= w.computeBusy
    && v.usefulCompute <= w.usefulCompute
    && v.nonUsefulCompute <= w.nonUsefulCompute
    && v.necessaryOverhead <= w.necessaryOverhead
    && v.retry <= w.retry
    && v.memoryPressure <= w.memoryPressure
    && v.transferActive <= w.transferActive
    && v.computeIdle <= w.computeIdle
    && v.reservedIdle <= w.reservedIdle
    && v.residencyIdle <= w.residencyIdle
    && v.fenced <= w.fenced
    && v.unavailable <= w.unavailable
    && v.strandedCapacity <= w.strandedCapacity
    && v.queueWait <= w.queueWait
    && v.dependencyWait <= w.dependencyWait
    && v.waitingTransfer <= w.waitingTransfer
    && v.waitingMemory <= w.waitingMemory
    && v.recoveryWait <= w.recoveryWait
    && v.computeTransferOverlap <= w.computeTransferOverlap
  }

  /** More events and a wider window can only add ticks. */
  lemma TicksGrow(events: seq<EventSpan>, more: seq<EventSpan>, cats: Categories, win: Interval, wide: Interval)
    requires forall e :: e in events ==> e in more
    requires forall t: int :: win.Contains(t) ==> wide.Contains(t)
    ensures Ticks(events, cats, win) <= Ticks(more, cats, wide)
    ensures Time(events, cats, win) <= Time(more, cats, wide)
  {
    forall t | Active(events, cats, t)
      ensures Active(more, cats, t)
    {
      var i :| 0 <= i < |events| && events[i].category in cats && events[i].span.Contains(t);
      assert events[i] in events;
      var j :| 0 <= j < |more| && more[j] == events[i];
    }
    Monotone(Ticks(events, cats, win), Ticks(more, cats, wide));
  }

  lemma OverlapGrows(events: seq<EventSpan>, more: seq<EventSpan>, win: Interval, wide: Interval)
    requires forall e :: e in events ==> e in more
    requires forall t: int :: win.Contains(t) ==> wide.Contains(t)
    ensures OverlapTime(events, win) <= OverlapTime(more, wide)
  {
    TicksGrow(events, more, BUSY, win, wide);
    TicksGrow(events, more, Only(TRANSFER_ACTIVE), win, wide);
    Monotone(Ticks(events, BUSY, win) * Ticks(events, Only(TRANSFER_ACTIVE), win),
             Ticks(more, BUSY, wide) * Ticks(more, Only(TRANSFER_ACTIVE), wide));
  }

  /** No component shrinks when events are added or the window is widened. */
  lemma WindowsGrow(events: seq<EventSpan>, more: seq<EventSpan>, win: Interval, wide: Interval)
    requires forall e :: e in events ==> e in more
    requires forall t: int :: win.Contains(t) ==> wide.Contains(t)
    ensures AtMost(WindowOf(events, win), WindowOf(more, wide))
  {
    hide Time;
    hide OverlapTime;
    SpanGrows(win, wide);
    TicksGrow(events, more, BUSY, win, wide);
    OverlapGrows(events, more, win, wide);
    forall k: u8
      ensures Time(events, Only(k), win) <= Time(more, Only(k), wide)
    {
      TicksGrow(events, more, Only(k), win, wide);
    }
  }

  lemma SpanGrows(win: Interval, wide: Interval)
    requires forall t: int :: win.Contains(t) ==> wide.Contains(t)
    ensures win.Duration() <= wide.Duration()
  {
    if !win.IsEmpty() {
      assert win.Contains(win.begin) && win.Contains(win.end - 1);
    }
  }

  // ----- accounting -----

  lemma UnionBound<T>(a: set<T>, b: set<T>)
    ensures |a + b| <= |a| + |b|
    ensures |a + b| == |a| + |b| - |a * b|
    ensures |a + b| == |a| + |b| <==> a !! b
  {
    assert a + b == a + (b - a);
    assert b == (b - a) + a * b;
  }

  lemma CommonBound<T>(a: set<T>, b: set<T>, all: set<T>)
    requires a <= all && b <= all
    ensures |a| + |b| - |all| <= |a * b|
    ensures |a * b| <= |a| && |a * b| <= |b|
  {
    UnionBound(a, b);
    Monotone(a + b, all);
    Monotone(a * b, a);
    Monotone(a * b, b);
  }

  lemma CategoryWithin(events: seq<EventSpan>, a: Categories, b: Categories, win: Interval)
    requires a <= b
    ensures Ticks(events, a, win) <= Ticks(events, b, win)
    ensures Time(events, a, win) <= Time(events, b, win)
  {
    Monotone(Ticks(events, a, win), Ticks(events, b, win));
  }

  /** Busy time lies between its parts and their sum, and overlap between its two bounds. */
  lemma AccountingBounds(events: seq<EventSpan>, win: Interval)
    ensures var v := WindowOf(events, win);
      && v.usefulCompute <= v.computeBusy <= v.windowSpan
      && v.nonUsefulCompute <= v.computeBusy && v.necessaryOverhead <= v.computeBusy
      && v.retry <= v.computeBusy && v.memoryPressure <= v.computeBusy
      && v.computeBusy <= v.usefulCompute + v.nonUsefulCompute + v.necessaryOverhead + v.retry + v.memoryPressure
      && v.computeBusy + v.transferActive - v.windowSpan <= v.computeTransferOverlap
      && v.computeTransferOverlap <= v.computeBusy && v.computeTransferOverlap <= v.transferActive
  {
    BusyBounds(events, win);
    OverlapBounds(events, win);
  }

  lemma BusyBounds(events: seq<EventSpan>, win: Interval)
    ensures var v := WindowOf(events, win);
      && v.usefulCompute <= v.computeBusy <= v.windowSpan
      && v.nonUsefulCompute <= v.computeBusy && v.necessaryOverhead <= v.computeBusy
      && v.retry <= v.computeBusy && v.memoryPressure <= v.computeBusy
      && v.computeBusy <= v.usefulCompute + v.nonUsefulCompute + v.necessaryOverhead + v.retry + v.memoryPressure
  {
    hide Ticks;
    TicksInWindow(events, BUSY, win);
    BusyIsFive(events, win);
    var u, n, o := Ticks(events, Only(USEFUL_EXECUTION), win), Ticks(events, Only(NON_USEFUL_EXECUTION), win),
      Ticks(events, Only(NECESSARY_OVERHEAD), win);
    var r, m := Ticks(events, Only(RETRY_EXECUTION), win), Ticks(events, Only(MEMORY_BOUND), win);
    var busy := Ticks(events, BUSY, win);
    Monotone(u, busy);
    Monotone(n, busy);
    Monotone(o, busy);
    Monotone(r, busy);
    Monotone(m, busy);
    UnionBound(u, n);
    UnionBound(u + n, o);
    UnionBound(u + n + o, r);
    UnionBound(u + n + o + r, m);
  }

  lemma OverlapBounds(events: seq<EventSpan>, win: Interval)
    ensures var v := WindowOf(events, win);
      && v.computeBusy + v.transferActive - v.windowSpan <= v.computeTransferOverlap
      && v.computeTransferOverlap <= v.computeBusy && v.computeTransferOverlap <= v.transferActive
  {
    hide Ticks;
    TicksInWindow(events, BUSY, win);
    TicksInWindow(events, Only(TRANSFER_ACTIVE), win);
    CountBetween(win.begin, win.end);
    CommonBound(Ticks(events, BUSY, win), Ticks(events, Only(TRANSFER_ACTIVE), win), Between(win.begin, win.end));
  }

  /** Accounted plus unknown is the span, so the clamp at zero never acts; busy time is never unknown. */
  lemma UnknownBalances(devices: map<Id, Device>, d: Id, win: Interval)
    requires win.Duration() > 0
    ensures var g := GapOf(devices, d, win);
      && g.unknown.Ratio? && g.unknown.denominator == win.Duration()
      && (d in devices ==>
            && Time(devices[d].events, ANY, win) + g.unknown.numerator == win.Duration()
            && g.headlineBusy == Ratio(WindowOf(devices[d].events, win).computeBusy, win.Duration())
            && g.headlineBusy.numerator + g.unknown.numerator <= win.Duration())
      && (d !in devices ==> g.unknown.numerator == win.Duration() && g.headlineBusy.Undefined?)
  {
    hide Ticks;
    if d in devices {
      CategoryWithin(devices[d].events, BUSY, ANY, win);
      TicksInWindow(devices[d].events, ANY, win);
    }
  }

  // ----- the check of the command line tool -----

  /** One of the conditions `validate-state` tests. */
  ghost predicate CheckHolds(events: seq<EventSpan>, win: Interval) {
    var v := WindowOf(events, win);
    v.nonUsefulCompute + v.necessaryOverhead + v.retry <= v.computeBusy
  }

  /** The ticks of non-useful, overhead and retry execution. */
  ghost function Wasted(events: seq<EventSpan>, win: Interval): (set<int>, set<int>, set<int>) {
    (Ticks(events, Only(NON_USEFUL_EXECUTION), win), Ticks(events, Only(NECESSARY_OVERHEAD), win),
     Ticks(events, Only(RETRY_EXECUTION), win))
  }

  ghost predicate PairwiseDisjoint(events: seq<EventSpan>, win: Interval) {
    var (n, o, r) := Wasted(events, win);
    n !! o && n !! r && o !! r
  }

  /** Ticks counted once too often by the sum non_useful + overhead + retry. */
  ghost function DoubleCounted(events: seq<EventSpan>, win: Interval): nat {
    var (n, o, r) := Wasted(events, win);
    |n * o| + |(n + o) * r|
  }

  /** Busy ticks that are neither non-useful nor overhead nor retry. */
  ghost function OtherwiseBusy(events: seq<EventSpan>, win: Interval): nat {
    var (n, o, r) := Wasted(events, win);
    |Ticks(events, BUSY, win) - (n + o + r)|
  }

  /**
   `non_useful + overhead + retry <= busy` holds exactly when the double counted ticks are no more
   than the busy ticks outside the three categories; pairwise disjoint categories are enough.
   */
  lemma CommandLineCheck(events: seq<EventSpan>, win: Interval)
    ensures
      && (CheckHolds(events, win) <==> DoubleCounted(events, win) <= OtherwiseBusy(events, win))
      && (PairwiseDisjoint(events, win) ==> CheckHolds(events, win))
      && (PairwiseDisjoint(events, win) <==> DoubleCounted(events, win) == 0)
  {
    hide Ticks;
    var (n, o, r) := Wasted(events, win);
    var busy := Ticks(events, BUSY, win);
    BusyIsFive(events, win);
    assert n + o + r <= busy;
    UnionBound(n, o);
    UnionBound(n + o, r);
    assert busy == (n + o + r) + (busy - (n + o + r));
    DisjointUnion(n + o + r, busy - (n + o + r));
  }

  /** No tick at which two of non-useful, overhead and retry execution go on together. */
  ghost predicate NeverTogether(events: seq<EventSpan>) {
    forall t :: !(Active(events, Only(NON_USEFUL_EXECUTION), t) && Active(events, Only(NECESSARY_OVERHEAD), t))
      && !(Active(events, Only(NON_USEFUL_EXECUTION), t) && Active(events, Only(RETRY_EXECUTION), t))
      && !(Active(events, Only(NECESSARY_OVERHEAD), t) && Active(events, Only(RETRY_EXECUTION), t))
  }

  /** The check passes in every window if and only if the three kinds of execution never overlap. */
  lemma CheckHoldsEverywhere(events: seq<EventSpan>)
    ensures (forall win: Interval :: CheckHolds(events, win)) <==> NeverTogether(events)
  {
    if NeverTogether(events) {
      forall win: Interval
        ensures CheckHolds(events, win)
      {
        CommandLineCheck(events, win);
      }
    }
    if forall win: Interval :: CheckHolds(events, win) {
      forall t
        ensures !(Active(events, Only(NON_USEFUL_EXECUTION), t) && Active(events, Only(NECESSARY_OVERHEAD), t))
          && !(Active(events, Only(NON_USEFUL_EXECUTION), t) && Active(events, Only(RETRY_EXECUTION), t))
          && !(Active(events, Only(NECESSARY_OVERHEAD), t) && Active(events, Only(RETRY_EXECUTION), t))
      {
        if 0 <= t < U64_LIMIT - 1 {
          assert CheckHolds(events, Interval(t, t + 1));
          OneTick(events, t);
        } else {
          NothingActive(events, t);
        }
      }
    }
  }

  lemma NothingActive(events: seq<EventSpan>, t: int)
    requires !(0 <= t < U64_LIMIT - 1)
    ensures forall cats: Categories :: !Active(events, cats, t)
  {
  }

  /** In a window of one tick the check counts how many of the three are active. */
  lemma OneTick(events: seq<EventSpan>, t: Tick)
    requires t < U64_LIMIT - 1 && CheckHolds(events, Interval(t, t + 1))
    ensures !(Active(events, Only(NON_USEFUL_EXECUTION), t) && Active(events, Only(NECESSARY_OVERHEAD), t))
      && !(Active(events, Only(NON_USEFUL_EXECUTION), t) && Active(events, Only(RETRY_EXECUTION), t))
      && !(Active(events, Only(NECESSARY_OVERHEAD), t) && Active(events, Only(RETRY_EXECUTION), t))
  {
    var win := Interval(t, t + 1);
    TicksInWindow(events, BUSY, win);
    TimeOfOneTick(events, Only(NON_USEFUL_EXECUTION), t);
    TimeOfOneTick(events, Only(NECESSARY_OVERHEAD), t);
    TimeOfOneTick(events, Only(RETRY_EXECUTION), t);
  }

  lemma TimeOfOneTick(events: seq<EventSpan>, cats: Categories, t: Tick)
    requires t < U64_LIMIT - 1
    ensures Time(events, cats, Interval(t, t + 1)) == if Active(events, cats, t) then 1 else 0
  {
    var ticks := Ticks(events, cats, Interval(t, t + 1));
    assert ticks == if Active(events, cats, t) then {t as int} else {};
  }
}
