/** The merged timeline, the workload view and the gap, read off the accepted log without the accumulators. */
module LogViews {
  import opened Words
  import opened Intervals
  import opened Sorting
  import opened Observations
  import opened Engine
  import opened Machine
  import opened Reachability
  import opened LogReading
  import opened Windows
  import opened EndToEnd
  import opened Timeline
  import WindowTheorems
  import DeviceReading

  // ----- the order of a timeline -----

  /** Ascending by begin, then device, then source, then observation. */
  ghost predicate TimeOrdered(out: seq<TimelineEvent>) {
    forall i, j :: 0 <= i < j < |out| ==>
      var a, b := out[i], out[j];
      || a.span.begin < b.span.begin
      || (a.span.begin == b.span.begin && a.device < b.device)
      || (a.span.begin == b.span.begin && a.device == b.device && a.source < b.source)
      || (a.span.begin == b.span.begin && a.device == b.device && a.source == b.source
          && a.observation <= b.observation)
  }

  /** Sorting by the comparison is being in that order. */
  lemma SortedIsTimeOrdered(out: seq<TimelineEvent>)
    ensures Sorted(ComesBefore, out) <==> TimeOrdered(out)
  {
  }

  // ----- the entries of a timeline -----

  /** What the timeline says of the interval from b to e: everything but span and state is the begin's. */
  function LogEntry(b: Observation, e: Observation): TimelineEvent {
    TimelineEvent(
      span := PairSpan(b, e), source := b.source, sourceGeneration := b.sourceGeneration,
      device := b.device, deviceGeneration := b.deviceGeneration,
      workload := b.workload, workloadGeneration := b.workloadGeneration,
      state := PairCategory(b, e), provenance := b.provenance, observation := b.id)
  }

  /** The span has a tick in the window, or begins in it. */
  ghost predicate InWindow(span: Interval, win: Interval) {
    (exists t :: span.Contains(t) && win.Contains(t)) || win.begin <= span.begin < win.end
  }

  lemma ShownIsInWindow(e: EventSpan, win: Interval)
    ensures Shown(e, win) <==> InWindow(e.span, win)
  {
    var x := Intersect(e.span, win);
    OverlapDuration(e.span, win);
    if x.Duration() != 0 {
      assert e.span.Contains(x.begin) && win.Contains(x.begin);
    }
    if t :| e.span.Contains(t) && win.Contains(t) {
      assert x.Contains(t);
    }
  }

  /** The end at j makes the entry te in the window's timeline. */
  ghost predicate EndsEntry(log: seq<Observation>, te: TimelineEvent, win: Interval, j: int) {
    exists i :: Pair(log, i, j) && InWindow(PairSpan(log[i], log[j]), win) && te == LogEntry(log[i], log[j])
  }

  /** The ends among the first n observations that make the entry. */
  ghost function EntryEnds(log: seq<Observation>, n: nat, te: TimelineEvent, win: Interval): (ends: set<int>)
    requires n <= |log|
  {
    set j: int | 0 <= j < n && EndsEntry(log, te, win, j)
  }

  lemma EntryEndsStep(log: seq<Observation>, n: nat, te: TimelineEvent, win: Interval)
    requires n < |log|
    ensures |EntryEnds(log, n + 1, te, win)|
         == |EntryEnds(log, n, te, win)| + (if EndsEntry(log, te, win, n) then 1 else 0)
  {
    hide EndsEntry;
    var before := EntryEnds(log, n, te, win);
    if EndsEntry(log, te, win, n) {
      assert EntryEnds(log, n + 1, te, win) == before + {n};
    } else {
      assert EntryEnds(log, n + 1, te, win) == before;
    }
  }

  lemma EntryIsEnded(log: seq<Observation>, j: nat, te: TimelineEvent, win: Interval)
    requires j < |log|
    ensures EndsEntry(log, te, win, j) <==>
      ClosesFor(log, j, te.device) && Shown(EventAt(log, j), win) && te == Entry(te.device, EventAt(log, j))
  {
    hide Closes;
    hide Shown;
    hide InWindow;
    hide PairSpan;
    hide PairCategory;
    hide Couple;
    if Closes(log, j).Some? {
      ClosesIsPair(log, Closes(log, j).value, j);
      ShownIsInWindow(EventAt(log, j), win);
    }
    if i :| Pair(log, i, j) && InWindow(PairSpan(log[i], log[j]), win) && te == LogEntry(log[i], log[j]) {
      ClosesIsPair(log, i, j);
    }
  }

  lemma {:induction false} EntriesCountEnds(log: seq<Observation>, n: nat, te: TimelineEvent, win: Interval)
    requires n <= |log|
    ensures multiset(DeviceEntries(te.device, EventsOf(log, n, te.device), win))[te] == |EntryEnds(log, n, te, win)|
  {
    hide EndsEntry;
    hide Shown;
    hide DeviceEntries;
    hide EntryEnds;
    hide ClosesFor;
    hide EventAt;
    if n > 0 {
      EntriesCountEnds(log, n - 1, te, win);
      EntryEndsStep(log, n - 1, te, win);
      EntryIsEnded(log, n - 1, te, win);
      EventsAppend(log, n - 1, te.device);
      hide EventsOf;
      hide Entry;
      hide LogEntry;
      if ClosesFor(log, n - 1, te.device) {
        var e := EventAt(log, n - 1);
        DeviceEntriesAppend(te.device, EventsOf(log, n - 1, te.device), e, win);
        assert multiset([Entry(te.device, e)])[te] == if te == Entry(te.device, e) then 1 else 0;
      }
    } else {
      NoEntriesYet(log, te, win);
    }
  }

  lemma NoEntriesYet(log: seq<Observation>, te: TimelineEvent, win: Interval)
    ensures DeviceEntries(te.device, EventsOf(log, 0, te.device), win) == [] && EntryEnds(log, 0, te, win) == {}
  {
  }

  /**
   In every reachable state and for every map order, the timeline of a window is in order and holds
   an entry exactly as often as the accepted log has a pair that makes it and lies in the window.
   */
  lemma {:induction false} TimelineReadsTheLog(
    limits: Limits, epoch: u64, generation: u64, ops: seq<Op>, i: nat, win: Interval, order: seq<Id>,
    out: seq<TimelineEvent>, te: TimelineEvent)
    requires i <= |ops|
    requires var s := StateAt(Init(limits, epoch, generation), ops, i);
      Enumerates(order, s.devices) && Sorts(ComesBefore, Entries(s.devices, order, win), out)
    ensures var log := LogAt(Init(limits, epoch, generation), ops, i);
      && TimeOrdered(out)
      && multiset(out)[te] == |EntryEnds(log, |log|, te, win)|
      && (te in out <==> exists j :: 0 <= j < |log| && EndsEntry(log, te, win, j))
  {
    hide StateAt;
    hide LogAt;
    hide DevicesOf;
    hide WellFormed;
    hide Entries;
    hide DeviceEntries;
    hide EventsIn;
    hide Enumerates;
    hide EndsEntry;
    hide ComesBefore;
    hide EntryEnds;
    hide TimeOrdered;
    var s0 := Init(limits, epoch, generation);
    var s, log := StateAt(s0, ops, i), LogAt(s0, ops, i);
    RunFaithful(limits, epoch, generation, ops, i);
    DevicesReadLog(s.devices, log, te.device);
    EntryCountOf(s.devices, order, win, te);
    EntriesCountEnds(log, |log|, te, win);
    SortedIsTimeOrdered(out);
    SomeEnds(log, te, win);
    assert te in out <==> multiset(out)[te] > 0;
  }

  lemma SomeEnds(log: seq<Observation>, te: TimelineEvent, win: Interval)
    ensures |EntryEnds(log, |log|, te, win)| > 0 <==> exists j :: 0 <= j < |log| && EndsEntry(log, te, win, j)
  {
    hide EndsEntry;
    var ends := EntryEnds(log, |log|, te, win);
    if |ends| > 0 {
      var j :| j in ends;
      assert EndsEntry(log, te, win, j);
    }
    if j :| 0 <= j < |log| && EndsEntry(log, te, win, j) {
      assert j in ends;
    }
  }

  // ----- the workload view -----

  /** At tick t the log shows the workload in one of the categories, on whatever device. */
  ghost predicate WorkloadActive(log: seq<Observation>, wl: Id, cats: Categories, t: int) {
    exists i, j :: Pair(log, i, j) && log[i].workload == wl
      && PairCategory(log[i], log[j]) in cats && PairSpan(log[i], log[j]).Contains(t)
  }

  ghost function WorkloadTicks(log: seq<Observation>, wl: Id, cats: Categories, win: Interval): (ticks: set<int>)
    ensures forall t :: t in ticks <==> win.Contains(t) && WorkloadActive(log, wl, cats, t)
  {
    set t: int | 0 <= t < U64_LIMIT && win.Contains(t) && WorkloadActive(log, wl, cats, t)
  }

  ghost function WorkloadTime(log: seq<Observation>, wl: Id, cats: Categories, win: Interval): nat {
    |WorkloadTicks(log, wl, cats, win)|
  }

  /** Every component of a workload view counts the ticks the log shows. */
  ghost predicate ViewCountsLog(v: WorkloadView, log: seq<Observation>, wl: Id, win: Interval) {
    && v.activeExecution
         == WorkloadTime(log, wl, iset{USEFUL_EXECUTION, NON_USEFUL_EXECUTION, RETRY_EXECUTION}, win)
    && v.usefulExecution == WorkloadTime(log, wl, iset{USEFUL_EXECUTION}, win)
    && v.nonUsefulExecution == WorkloadTime(log, wl, iset{NON_USEFUL_EXECUTION}, win)
    && v.retryTime == WorkloadTime(log, wl, iset{RETRY_EXECUTION}, win)
    && v.transferTime == WorkloadTime(log, wl, iset{TRANSFER_ACTIVE}, win)
    && v.residencyHeld == WorkloadTime(log, wl, iset{RESIDENCY_IDLE}, win)
    && v.reservationHeld == WorkloadTime(log, wl, iset{RESERVED_IDLE}, win)
  }

  /** The events the view looks at are those of the workload's pairs. */
  lemma WorkloadEventsArePairs(devices: map<Id, Device>, log: seq<Observation>, order: seq<Id>, wl: Id, e: EventSpan)
    requires Enumerates(order, devices) && devices == DevicesOf(log, |log|)
    ensures e in WorkloadEvents(devices, order, wl) <==>
      e.workload == wl && exists d, i, j :: Makes(log, d, e, i, j)
  {
    hide DevicesOf;
    hide EventsIn;
    hide EventsOf;
    hide Makes;
    hide WorkloadEvents;
    WorkloadMembers(devices, order, wl, e);
    forall d
      ensures e in EventsIn(devices, d) <==> exists i, j :: Makes(log, d, e, i, j)
    {
      DevicesReadLog(devices, log, d);
      EventsArePairs(log, |log|, d, e);
      if i, j :| Makes(log, d, e, i, j) {
        MakesInside(log, d, e, i, j);
      }
    }
    if d, i, j :| Makes(log, d, e, i, j) {
      assert e in EventsIn(devices, d);
      EventsNeedDevice(devices, d, e);
    }
  }

  lemma MakesInside(log: seq<Observation>, d: Id, e: EventSpan, i: int, j: int)
    requires Makes(log, d, e, i, j)
    ensures 0 <= i < j < |log|
  {
  }

  lemma EventsNeedDevice(devices: map<Id, Device>, d: Id, e: EventSpan)
    requires e in EventsIn(devices, d)
    ensures d in devices
  {
  }

  lemma WorkloadShowsLog(events: seq<EventSpan>, log: seq<Observation>, wl: Id, cats: Categories, t: int)
    requires forall e :: e in events <==> e.workload == wl && exists d, i, j :: Makes(log, d, e, i, j)
    ensures Active(events, cats, t) <==> WorkloadActive(log, wl, cats, t)
  {
    hide Couple;
    hide SameSubject;
    hide PairCategory;
    hide PairSpan;
    if Active(events, cats, t) {
      var k :| 0 <= k < |events| && events[k].category in cats && events[k].span.Contains(t);
      assert events[k] in events;
      var d, i, j :| Makes(log, d, events[k], i, j);
      assert Pair(log, i, j);
    }
    if WorkloadActive(log, wl, cats, t) {
      var i, j :| Pair(log, i, j) && log[i].workload == wl
        && PairCategory(log[i], log[j]) in cats && PairSpan(log[i], log[j]).Contains(t);
      var e := PairEvent(log[i], log[j]);
      assert Makes(log, log[j].device, e, i, j);
      assert e in events;
      var k :| 0 <= k < |events| && events[k] == e;
    }
  }

  /**
   In every reachable state and for every map order, each component of a workload's view is the
   number of window ticks that pairs of the workload in the accepted log cover, on any device.
   */
  lemma {:induction false} WorkloadReadsTheLog(limits: Limits, epoch: u64, generation: u64, ops: seq<Op>, i: nat,
                                               order: seq<Id>, wl: Id, win: Interval)
    requires i <= |ops|
    requires Enumerates(order, StateAt(Init(limits, epoch, generation), ops, i).devices)
    ensures var s0 := Init(limits, epoch, generation);
      ViewCountsLog(WorkloadOf(WorkloadEvents(StateAt(s0, ops, i).devices, order, wl), win), LogAt(s0, ops, i), wl, win)
  {
    hide StateAt;
    hide LogAt;
    hide DevicesOf;
    hide WellFormed;
    hide WorkloadEvents;
    hide Enumerates;
    hide Makes;
    hide WorkloadActive;
    hide Active;
    var s0 := Init(limits, epoch, generation);
    var s, log := StateAt(s0, ops, i), LogAt(s0, ops, i);
    RunFaithful(limits, epoch, generation, ops, i);
    var events := WorkloadEvents(s.devices, order, wl);
    forall e
      ensures e in events <==> e.workload == wl && exists d, a, b :: Makes(log, d, e, a, b)
    {
      WorkloadEventsArePairs(s.devices, log, order, wl, e);
    }
    forall cats: Categories
      ensures Ticks(events, cats, win) == WorkloadTicks(log, wl, cats, win)
    {
      forall t
        ensures Active(events, cats, t) <==> WorkloadActive(log, wl, cats, t)
      {
        WorkloadShowsLog(events, log, wl, cats, t);
      }
    }
    hide Ticks;
    hide WorkloadTicks;
    assert WORKING == iset{USEFUL_EXECUTION, NON_USEFUL_EXECUTION, RETRY_EXECUTION};
    assert forall c: u8 :: Time(events, Only(c), win) == WorkloadTime(log, wl, iset{c}, win);
  }

  // ----- the gap -----

  /** Every ratio of a gap counts the ticks the log shows, over the whole window. */
  ghost predicate GapCountsLog(g: Gap, log: seq<Observation>, d: Id, win: Interval)
    requires win.Duration() > 0
  {
    var span := win.Duration();
    && IsRatio(g.headlineBusy, LogTime(log, d, BUSY, win), span)
    && IsRatio(g.usefulExecution, LogTime(log, d, Only(USEFUL_EXECUTION), win), span)
    && IsSumRatio(g.nonUsefulBusy, LogTime(log, d, Only(NON_USEFUL_EXECUTION), win),
         LogTime(log, d, Only(NECESSARY_OVERHEAD), win), LogTime(log, d, Only(RETRY_EXECUTION), win), span)
    && IsRatio(g.overhead, LogTime(log, d, Only(NECESSARY_OVERHEAD), win), span)
    && IsRatio(g.idle, LogTime(log, d, Only(DEVICE_IDLE), win), span)
    && IsRatio(g.reservedIdle, LogTime(log, d, Only(RESERVED_IDLE), win), span)
    && IsRatio(g.strandedCapacity, LogTime(log, d, Only(FRAGMENTATION_STRANDED), win), span)
    && IsRatio(g.unknown, span - LogTime(log, d, ANY, win), span)
  }

  predicate IsRatio(r: Ratio, numerator: int, denominator: int) {
    r.Ratio? && r.numerator == numerator && r.denominator == denominator
  }

  /** The numerator is a uint64 sum. */
  predicate IsSumRatio(r: Ratio, a: int, b: int, c: int, denominator: int) {
    IsRatio(r, (a + b + c) % U64_LIMIT, denominator)
  }

  /** The gap of a device nothing was accepted about: all that is known is that the window is unknown. */
  ghost predicate GapKnowsNothing(g: Gap, win: Interval) {
    && IsRatio(g.unknown, win.Duration(), win.Duration())
    && g.headlineBusy.Undefined? && g.usefulExecution.Undefined? && g.nonUsefulBusy.Undefined?
    && g.overhead.Undefined? && g.idle.Undefined? && g.reservedIdle.Undefined? && g.strandedCapacity.Undefined?
  }

  /**
   In every reachable state the gap of a valid device over a non-empty window is read off the accepted
   log: its ratios when an observation of the device was accepted, and otherwise only the unknown one.
   */
  lemma {:induction false} GapReadsTheLog(limits: Limits, epoch: u64, generation: u64, ops: seq<Op>, i: nat, d: Id,
                                          win: Interval)
    requires i <= |ops| && d != 0 && win.Duration() > 0
    ensures var s0 := Init(limits, epoch, generation);
      var g, log := GapOf(StateAt(s0, ops, i).devices, d, win), LogAt(s0, ops, i);
      if exists k :: 0 <= k < |log| && log[k].device == d then GapCountsLog(g, log, d, win)
      else GapKnowsNothing(g, win)
  {
    hide StateAt;
    hide LogAt;
    hide DevicesOf;
    hide WellFormed;
    hide WindowOf;
    var s0 := Init(limits, epoch, generation);
    var s, log := StateAt(s0, ops, i), LogAt(s0, ops, i);
    RunFaithful(limits, epoch, generation, ops, i);
    DeviceReading.AccumulatorsAreNamed(log, |log|, d);
    if d in s.devices {
      DevicesReadLog(s.devices, log, d);
      GapOfLog(s.devices, log, d, win);
    }
  }

  lemma GapOfLog(devices: map<Id, Device>, log: seq<Observation>, d: Id, win: Interval)
    requires win.Duration() > 0 && d in devices && EventsIn(devices, d) == EventsOf(log, |log|, d)
    ensures GapCountsLog(GapOf(devices, d, win), log, d, win)
  {
    hide EventsOf;
    hide EventsIn;
    hide WindowOf;
    hide GapOf;
    hide LogTime;
    hide Time;
    hide BUSY;
    hide ANY;
    EventTimesCountLog(log, d, win);
    AccountedCountsLog(log, d, win);
    UnknownIsTheRest(devices, d, win);
    GapRatios(devices, d, win);
    hide IsSumRatio;
  }

  /** The ratios in terms of the window vector. */
  lemma GapRatios(devices: map<Id, Device>, d: Id, win: Interval)
    requires win.Duration() > 0 && d in devices
    ensures var g, v, span := GapOf(devices, d, win), WindowOf(EventsIn(devices, d), win), win.Duration();
      && IsRatio(g.headlineBusy, v.computeBusy, span) && IsRatio(g.usefulExecution, v.usefulCompute, span)
      && IsSumRatio(g.nonUsefulBusy, v.nonUsefulCompute, v.necessaryOverhead, v.retry, span)
      && IsRatio(g.overhead, v.necessaryOverhead, span) && IsRatio(g.idle, v.computeIdle, span)
      && IsRatio(g.reservedIdle, v.reservedIdle, span) && IsRatio(g.strandedCapacity, v.strandedCapacity, span)
  {
    hide WindowOf;
    hide Ticks;
  }

  lemma AccountedCountsLog(log: seq<Observation>, d: Id, win: Interval)
    ensures Time(EventsOf(log, |log|, d), ANY, win) == LogTime(log, d, ANY, win)
  {
    hide LogActive;
    hide Active;
    hide EventsOf;
    forall t
      ensures Active(EventsOf(log, |log|, d), ANY, t) <==> LogActive(log, d, ANY, t)
    {
      EventsShowLog(log, d, ANY, t);
    }
    assert Ticks(EventsOf(log, |log|, d), ANY, win) == LogTicks(log, d, ANY, win);
  }
}
