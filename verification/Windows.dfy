/** Window reconstruction: the per-category times of a device and its utilization gap. */
module Windows {
  import opened Words
  import opened Intervals
  import opened Sweep
  import opened Observations
  import opened Engine

  // ----- the simple reading -----

  type Categories = iset<u8>

  function Only(c: u8): Categories { iset{c} }

  const BUSY: Categories :=
    iset{USEFUL_EXECUTION, NON_USEFUL_EXECUTION, NECESSARY_OVERHEAD, RETRY_EXECUTION, MEMORY_BOUND}

  ghost const ANY: Categories := iset c: u8 | true

  ghost predicate Active(events: seq<EventSpan>, cats: Categories, t: int) {
    exists i :: 0 <= i < |events| && events[i].category in cats && events[i].span.Contains(t)
  }

  /** The ticks of the window at which an event of one of the categories was going on. */
  ghost function Ticks(events: seq<EventSpan>, cats: Categories, win: Interval): (ticks: set<int>)
    ensures forall t :: t in ticks <==> win.Contains(t) && Active(events, cats, t)
  {
    set t: int | 0 <= t < U64_LIMIT && win.Contains(t) && Active(events, cats, t)
  }

  lemma TicksInWindow(events: seq<EventSpan>, cats: Categories, win: Interval)
    ensures Ticks(events, cats, win) <= Between(win.begin, win.end)
    ensures |Ticks(events, cats, win)| <= win.Duration()
  {
    CountBetween(win.begin, win.end);
    Monotone(Ticks(events, cats, win), Between(win.begin, win.end));
  }

  /** How many ticks that is. */
  ghost function Time(events: seq<EventSpan>, cats: Categories, win: Interval): Tick {
    TicksInWindow(events, cats, win);
    |Ticks(events, cats, win)|
  }

  /** Ticks of the window at which the device computed and transferred at once. */
  ghost function OverlapTime(events: seq<EventSpan>, win: Interval): Tick {
    TicksInWindow(events, BUSY, win);
    Monotone(Ticks(events, BUSY, win) * Ticks(events, Only(TRANSFER_ACTIVE), win), Ticks(events, BUSY, win));
    |Ticks(events, BUSY, win) * Ticks(events, Only(TRANSFER_ACTIVE), win)|
  }

  // ----- the window computation -----

  datatype UtilizationVector = UtilizationVector(
    windowSpan: Tick, computeBusy: Tick, usefulCompute: Tick, nonUsefulCompute: Tick, necessaryOverhead: Tick,
    retry: Tick, memoryPressure: Tick, transferActive: Tick, computeIdle: Tick, reservedIdle: Tick,
    residencyIdle: Tick, fenced: Tick, unavailable: Tick, strandedCapacity: Tick, queueWait: Tick,
    dependencyWait: Tick, waitingTransfer: Tick, waitingMemory: Tick, recoveryWait: Tick, computeTransferOverlap: Tick)

  /** Every component read off the covered ticks. */
  ghost function WindowOf(events: seq<EventSpan>, win: Interval): UtilizationVector {
    UtilizationVector(
      win.Duration(),
      Time(events, BUSY, win),
      Time(events, Only(USEFUL_EXECUTION), win),
      Time(events, Only(NON_USEFUL_EXECUTION), win),
      Time(events, Only(NECESSARY_OVERHEAD), win),
      Time(events, Only(RETRY_EXECUTION), win),
      Time(events, Only(MEMORY_BOUND), win),
      Time(events, Only(TRANSFER_ACTIVE), win),
      Time(events, Only(DEVICE_IDLE), win),
      Time(events, Only(RESERVED_IDLE), win),
      Time(events, Only(RESIDENCY_IDLE), win),
      Time(events, Only(AUTHORITY_FENCED), win),
      Time(events, Only(DEVICE_UNAVAILABLE), win),
      Time(events, Only(FRAGMENTATION_STRANDED), win),
      Time(events, Only(WAITING_QUEUE), win),
      Time(events, Only(WAITING_DEPENDENCY), win),
      Time(events, Only(WAITING_TRANSFER), win),
      Time(events, Only(WAITING_MEMORY), win),
      Time(events, Only(WAITING_RECOVERY), win),
      OverlapTime(events, win))
  }

  lemma TicksAppend(events: seq<EventSpan>, e: EventSpan, cats: Categories, win: Interval)
    ensures Ticks(events + [e], cats, win) == Ticks(events, cats, win)
      + (if e.category in cats then Covered([Intersect(e.span, win)]) else {})
  {
    var x := Intersect(e.span, win);
    CoveredOne(x);
    var more := events + [e];
    forall t
      ensures Active(more, cats, t) <==> Active(events, cats, t) || (e.category in cats && e.span.Contains(t))
    {
      if Active(events, cats, t) {
        var i :| 0 <= i < |events| && events[i].category in cats && events[i].span.Contains(t);
        assert more[i] == events[i];
      }
      if e.category in cats && e.span.Contains(t) {
        assert more[|events|] == e;
      }
    }
    assert forall t :: t in Covered([x]) <==> x.Contains(t);
  }

  lemma TicksUnion(events: seq<EventSpan>, a: Categories, b: Categories, win: Interval)
    ensures Ticks(events, a + b, win) == Ticks(events, a, win) + Ticks(events, b, win)
  {
    forall t
      ensures Active(events, a + b, t) <==> Active(events, a, t) || Active(events, b, t)
    {
      if Active(events, a + b, t) {
        var i :| 0 <= i < |events| && events[i].category in a + b && events[i].span.Contains(t);
      }
      if Active(events, a, t) {
        var i :| 0 <= i < |events| && events[i].category in a && events[i].span.Contains(t);
        assert events[i].category in a + b;
      }
      if Active(events, b, t) {
        var i :| 0 <= i < |events| && events[i].category in b && events[i].span.Contains(t);
        assert events[i].category in a + b;
      }
    }
  }

  /** The clamped spans of one category. */
  method CollectCategory(events: seq<EventSpan>, category: u8, win: Interval) returns (out: seq<Interval>)
    ensures Covered(out) == Ticks(events, Only(category), win)
  {
    out := [];
    for i := 0 to |events|
      invariant Covered(out) == Ticks(events[..i], Only(category), win)
    {
      var e := events[i];
      assert events[..i + 1] == events[..i] + [e];
      TicksAppend(events[..i], e, Only(category), win);
      if e.category == category {
        CoveredConcatenation(out, [Intersect(e.span, win)]);
        out := out + [Intersect(e.span, win)];
      }
    }
    assert events[..|events|] == events;
  }

  /** The clamped spans of every event, whatever its category. */
  method CollectAll(events: seq<EventSpan>, win: Interval) returns (out: seq<Interval>)
    ensures Covered(out) == Ticks(events, ANY, win)
  {
    out := [];
    for i := 0 to |events|
      invariant Covered(out) == Ticks(events[..i], ANY, win)
    {
      assert events[..i + 1] == events[..i] + [events[i]];
      TicksAppend(events[..i], events[i], ANY, win);
      CoveredConcatenation(out, [Intersect(events[i].span, win)]);
      out := out + [Intersect(events[i].span, win)];
    }
    assert events[..|events|] == events;
  }

  /** The five busy lists one after another. */
  lemma BusyLists(events: seq<EventSpan>, win: Interval, a: seq<Interval>, b: seq<Interval>, c: seq<Interval>,
                  d: seq<Interval>, e: seq<Interval>)
    requires Covered(a) == Ticks(events, Only(USEFUL_EXECUTION), win)
    requires Covered(b) == Ticks(events, Only(NON_USEFUL_EXECUTION), win)
    requires Covered(c) == Ticks(events, Only(NECESSARY_OVERHEAD), win)
    requires Covered(d) == Ticks(events, Only(RETRY_EXECUTION), win)
    requires Covered(e) == Ticks(events, Only(MEMORY_BOUND), win)
    ensures Covered(a + b + c + d + e) == Ticks(events, BUSY, win)
  {
    CoveredConcatenation(a, b);
    CoveredConcatenation(a + b, c);
    CoveredConcatenation(a + b + c, d);
    CoveredConcatenation(a + b + c + d, e);
    BusyIsFive(events, win);
  }

  lemma BusyIsFive(events: seq<EventSpan>, win: Interval)
    ensures Ticks(events, BUSY, win) ==
      Ticks(events, Only(USEFUL_EXECUTION), win) + Ticks(events, Only(NON_USEFUL_EXECUTION), win)
      + Ticks(events, Only(NECESSARY_OVERHEAD), win) + Ticks(events, Only(RETRY_EXECUTION), win)
      + Ticks(events, Only(MEMORY_BOUND), win)
  {
    hide Ticks;
    var ab := Only(USEFUL_EXECUTION) + Only(NON_USEFUL_EXECUTION);
    var abc := ab + Only(NECESSARY_OVERHEAD);
    var abcd := abc + Only(RETRY_EXECUTION);
    assert BUSY == abcd + Only(MEMORY_BOUND);
    TicksUnion(events, Only(USEFUL_EXECUTION), Only(NON_USEFUL_EXECUTION), win);
    TicksUnion(events, ab, Only(NECESSARY_OVERHEAD), win);
    TicksUnion(events, abc, Only(RETRY_EXECUTION), win);
    TicksUnion(events, abcd, Only(MEMORY_BOUND), win);
  }

  /** Collects each category, sweeps each list, and sweeps busy against transfer. */
  method ComputeWindow(events: seq<EventSpan>, win: Interval) returns (v: UtilizationVector)
    ensures v == WindowOf(events, win)
  {
    hide Ticks;
    hide Covered;
    var useful := CollectCategory(events, USEFUL_EXECUTION, win);
    var nonUseful := CollectCategory(events, NON_USEFUL_EXECUTION, win);
    var overhead := CollectCategory(events, NECESSARY_OVERHEAD, win);
    var retry := CollectCategory(events, RETRY_EXECUTION, win);
    var memoryBound := CollectCategory(events, MEMORY_BOUND, win);
    var transfer := CollectCategory(events, TRANSFER_ACTIVE, win);
    var busy := useful + nonUseful + overhead + retry + memoryBound;
    BusyLists(events, win, useful, nonUseful, overhead, retry, memoryBound);
    var busyTime := UnionDuration(busy);
    var usefulTime := UnionDuration(useful);
    var nonUsefulTime := UnionDuration(nonUseful);
    var overheadTime := UnionDuration(overhead);
    var retryTime := UnionDuration(retry);
    var memoryTime := UnionDuration(memoryBound);
    var transferTime := UnionDuration(transfer);
    var idle := CategoryTime(events, DEVICE_IDLE, win);
    var reserved := CategoryTime(events, RESERVED_IDLE, win);
    var residency := CategoryTime(events, RESIDENCY_IDLE, win);
    var fenced := CategoryTime(events, AUTHORITY_FENCED, win);
    var unavailable := CategoryTime(events, DEVICE_UNAVAILABLE, win);
    var stranded := CategoryTime(events, FRAGMENTATION_STRANDED, win);
    var queue := CategoryTime(events, WAITING_QUEUE, win);
    var dependency := CategoryTime(events, WAITING_DEPENDENCY, win);
    var waitTransfer := CategoryTime(events, WAITING_TRANSFER, win);
    var waitMemory := CategoryTime(events, WAITING_MEMORY, win);
    var recovery := CategoryTime(events, WAITING_RECOVERY, win);
    var overlap := IntersectUnionDuration(busy, transfer);
    v := UtilizationVector(
      win.Duration(), busyTime, usefulTime, nonUsefulTime, overheadTime, retryTime, memoryTime, transferTime,
      idle, reserved, residency, fenced, unavailable, stranded, queue, dependency, waitTransfer, waitMemory,
      recovery, overlap);
  }

  method CategoryTime(events: seq<EventSpan>, category: u8, win: Interval) returns (time: Tick)
    ensures time == Time(events, Only(category), win)
  {
    var spans := CollectCategory(events, category, win);
    time := UnionDuration(spans);
  }

  // ----- the gap -----

  /** Numerator over denominator, exactly; undefined is the source's zero denominator. */
  datatype Ratio = Undefined | Ratio(numerator: Tick, denominator: Tick)

  datatype Gap = Gap(
    headlineBusy: Ratio, usefulExecution: Ratio, nonUsefulBusy: Ratio, overhead: Ratio, idle: Ratio,
    reservedIdle: Ratio, strandedCapacity: Ratio, unknown: Ratio)

  const NO_GAP := Gap(Undefined, Undefined, Undefined, Undefined, Undefined, Undefined, Undefined, Undefined)

  /** Without an accumulator the whole window is unknown; an empty window has no ratios at all. */
  ghost function GapOf(devices: map<Id, Device>, d: Id, win: Interval): Gap {
    var span := win.Duration();
    if span == 0 then NO_GAP
    else if d !in devices then NO_GAP.(unknown := Ratio(span, span))
    else
      var events := devices[d].events;
      var v := WindowOf(events, win);
      TicksInWindow(events, ANY, win);
      Gap(Ratio(v.computeBusy, span), Ratio(v.usefulCompute, span),
          Ratio((v.nonUsefulCompute + v.necessaryOverhead + v.retry) % U64_LIMIT, span),
          Ratio(v.necessaryOverhead, span), Ratio(v.computeIdle, span), Ratio(v.reservedIdle, span),
          Ratio(v.strandedCapacity, span), Ratio(span - Time(events, ANY, win), span))
  }

  method ComputeGap(devices: map<Id, Device>, d: Id, win: Interval) returns (g: Gap)
    ensures g == GapOf(devices, d, win)
  {
    hide WindowOf;
    hide Ticks;
    hide Covered;
    var span := win.Duration();
    if d !in devices {
      return if span != 0 then NO_GAP.(unknown := Ratio(span, span)) else NO_GAP;
    }
    if span == 0 {
      return NO_GAP;
    }
    var events := devices[d].events;
    var v := ComputeWindow(events, win);
    var accounted := CollectAll(events, win);
    var accountedTime := UnionDuration(accounted);
    TicksInWindow(events, ANY, win);
    var unknown: int := span - accountedTime;
    if unknown < 0 { unknown := 0; }
    g := Gap(Ratio(v.computeBusy, span), Ratio(v.usefulCompute, span),
             Ratio((v.nonUsefulCompute + v.necessaryOverhead + v.retry) % U64_LIMIT, span),
             Ratio(v.necessaryOverhead, span), Ratio(v.computeIdle, span), Ratio(v.reservedIdle, span),
             Ratio(v.strandedCapacity, span), Ratio(unknown, span));
  }
}
