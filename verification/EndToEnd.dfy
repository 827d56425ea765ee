/** The end-to-end results: windows of any reachable state are the declarative reading of its accepted log. */
module EndToEnd {
  import opened Words
  import opened Intervals
  import opened Observations
  import opened Engine
  import opened Machine
  import opened Reachability
  import opened LogReading
  import opened Windows
  import opened WindowTheorems

  // ----- windows read off the log -----

  /** At tick t the log shows device d in one of the categories: some pair of the device covers t. */
  ghost predicate LogActive(log: seq<Observation>, d: Id, cats: Categories, t: int) {
    exists i, j :: Pair(log, i, j) && log[j].device == d
      && PairCategory(log[i], log[j]) in cats && PairSpan(log[i], log[j]).Contains(t)
  }

  ghost function LogTicks(log: seq<Observation>, d: Id, cats: Categories, win: Interval): (ticks: set<int>)
    ensures forall t :: t in ticks <==> win.Contains(t) && LogActive(log, d, cats, t)
  {
    set t: int | 0 <= t < U64_LIMIT && win.Contains(t) && LogActive(log, d, cats, t)
  }

  ghost function LogTime(log: seq<Observation>, d: Id, cats: Categories, win: Interval): nat {
    |LogTicks(log, d, cats, win)|
  }

  ghost function LogOverlap(log: seq<Observation>, d: Id, win: Interval): nat {
    |LogTicks(log, d, BUSY, win) * LogTicks(log, d, Only(TRANSFER_ACTIVE), win)|
  }

  /** Every component of a window vector counts the ticks the log shows. */
  ghost predicate CountsLog(v: UtilizationVector, log: seq<Observation>, d: Id, win: Interval) {
    && v.windowSpan == win.Duration()
    && v.computeBusy == LogTime(log, d, BUSY, win)
    && v.usefulCompute == LogTime(log, d, Only(USEFUL_EXECUTION), win)
    && v.nonUsefulCompute == LogTime(log, d, Only(NON_USEFUL_EXECUTION), win)
    && v.necessaryOverhead == LogTime(log, d, Only(NECESSARY_OVERHEAD), win)
    && v.retry == LogTime(log, d, Only(RETRY_EXECUTION), win)
    && v.memoryPressure == LogTime(log, d, Only(MEMORY_BOUND), win)
    && v.transferActive == LogTime(log, d, Only(TRANSFER_ACTIVE), win)
    && v.computeIdle == LogTime(log, d, Only(DEVICE_IDLE), win)
    && v.reservedIdle == LogTime(log, d, Only(RESERVED_IDLE), win)
    && v.residencyIdle == LogTime(log, d, Only(RESIDENCY_IDLE), win)
    && v.fenced == LogTime(log, d, Only(AUTHORITY_FENCED), win)
    && v.unavailable == LogTime(log, d, Only(DEVICE_UNAVAILABLE), win)
    && v.strandedCapacity == LogTime(log, d, Only(FRAGMENTATION_STRANDED), win)
    && v.queueWait == LogTime(log, d, Only(WAITING_QUEUE), win)
    && v.dependencyWait == LogTime(log, d, Only(WAITING_DEPENDENCY), win)
    && v.waitingTransfer == LogTime(log, d, Only(WAITING_TRANSFER), win)
    && v.waitingMemory == LogTime(log, d, Only(WAITING_MEMORY), win)
    && v.recoveryWait == LogTime(log, d, Only(WAITING_RECOVERY), win)
    && v.computeTransferOverlap == LogOverlap(log, d, win)
  }

  lemma EventsShowLog(log: seq<Observation>, d: Id, cats: Categories, t: int)
    ensures Active(EventsOf(log, |log|, d), cats, t) <==> LogActive(log, d, cats, t)
  {
    hide Couple;
    hide SameSubject;
    hide PairCategory;
    hide PairSpan;
    var events := EventsOf(log, |log|, d);
    if Active(events, cats, t) {
      var k :| 0 <= k < |events| && events[k].category in cats && events[k].span.Contains(t);
      EventsArePairs(log, |log|, d, events[k]);
      var i, j :| j < |log| && Makes(log, d, events[k], i, j);
    }
    if LogActive(log, d, cats, t) {
      var i, j :| Pair(log, i, j) && log[j].device == d
        && PairCategory(log[i], log[j]) in cats && PairSpan(log[i], log[j]).Contains(t);
      var e := PairEvent(log[i], log[j]);
      assert Makes(log, d, e, i, j);
      EventsArePairs(log, |log|, d, e);
      var k :| 0 <= k < |events| && events[k] == e;
    }
  }

  lemma EventTimesCountLog(log: seq<Observation>, d: Id, win: Interval)
    ensures CountsLog(WindowOf(EventsOf(log, |log|, d), win), log, d, win)
  {
    hide LogActive;
    hide Active;
    hide EventsOf;
    var events := EventsOf(log, |log|, d);
    forall cats: Categories
      ensures Ticks(events, cats, win) == LogTicks(log, d, cats, win)
    {
      forall t
        ensures Active(events, cats, t) <==> LogActive(log, d, cats, t)
      {
        EventsShowLog(log, d, cats, t);
      }
    }
    hide Ticks;
    hide LogTicks;
    assert forall k: u8 :: Time(events, Only(k), win) == LogTime(log, d, Only(k), win);
  }

  /** The events `device_window` looks at; a device without an accumulator has none. */
  function EventsIn(devices: map<Id, Device>, d: Id): seq<EventSpan> {
    if d in devices then devices[d].events else []
  }

  /**
   After any run of ingests, source lifecycle calls, epoch advances and loads, for every device
   and window, every component of the device window is the number of ticks the accepted log shows.
   */
  lemma WindowsReadTheLog(limits: Limits, epoch: u64, generation: u64, ops: seq<Op>, i: nat, d: Id, win: Interval)
    requires i <= |ops|
    ensures var s0 := Init(limits, epoch, generation);
      CountsLog(WindowOf(EventsIn(StateAt(s0, ops, i).devices, d), win), LogAt(s0, ops, i), d, win)
  {
    hide StateAt;
    hide LogAt;
    hide WindowOf;
    hide CountsLog;
    hide WellFormed;
    hide DevicesOf;
    hide Reads;
    hide EventsOf;
    var s0 := Init(limits, epoch, generation);
    var s, log := StateAt(s0, ops, i), LogAt(s0, ops, i);
    RunFaithful(limits, epoch, generation, ops, i);
    DevicesReadLog(s.devices, log, d);
    EventTimesCountLog(log, d, win);
  }

  lemma DevicesReadLog(devices: map<Id, Device>, log: seq<Observation>, d: Id)
    requires devices == DevicesOf(log, |log|)
    ensures EventsIn(devices, d) == EventsOf(log, |log|, d)
  {
    hide DevicesOf;
    hide EventsOf;
    hide OpenIndex;
    hide OpenOf;
    FoldReads(log, |log|);
  }

  // ----- evidence only accumulates -----

  lemma AccumulateExtends(devices: map<Id, Device>, o: Observation, d: Id)
    ensures EventsIn(devices, d) <= EventsIn(Accumulate(devices, o), d)
  {
    TouchKeepsIntervals(devices, o);
    BookIntervals(Touch(devices, o), o);
    hide Touch;
    hide Book;
    hide Close;
    hide OpenOf;
    hide KeyOf;
    hide IsBegin;
    hide IsEnd;
  }

  lemma StepExtends(s: State, op: Op, d: Id)
    requires !op.LoadOp?
    ensures EventsIn(s.devices, d) <= EventsIn(Step(s, op).state.devices, d)
    ensures Step(s, op).status != Ok || !op.IngestOp? ==> Step(s, op).state.devices == s.devices
  {
    hide Ingest;
    hide Accumulate;
    hide WellFormed;
    if op.IngestOp? {
      IngestFrame(s, false, op.o);
      if Ingest(s, false, op.o).status == Ok {
        IngestAccepts(s, false, op.o);
        AccumulateExtends(s.devices, op.o, d);
      }
    }
  }

  lemma {:induction false} EventsOnlyExtend(s0: State, ops: seq<Op>, i: nat, j: nat, d: Id)
    requires i <= j <= |ops| && forall m :: i <= m < j ==> !ops[m].LoadOp?
    ensures EventsIn(StateAt(s0, ops, i).devices, d) <= EventsIn(StateAt(s0, ops, j).devices, d)
    decreases j
  {
    hide Step;
    hide EventsIn;
    if i < j {
      EventsOnlyExtend(s0, ops, i, j - 1, d);
      StepExtends(StateAt(s0, ops, j - 1), ops[j - 1], d);
    }
  }

  /**
   Over any stretch of a run without a load no component of any device window decreases, and the
   unknown part of the gap never increases.
   */
  lemma EvidenceOnlyAccumulates(s0: State, ops: seq<Op>, i: nat, j: nat, d: Id, win: Interval)
    requires i <= j <= |ops| && forall m :: i <= m < j ==> !ops[m].LoadOp?
    ensures var before, after := StateAt(s0, ops, i).devices, StateAt(s0, ops, j).devices;
      && AtMost(WindowOf(EventsIn(before, d), win), WindowOf(EventsIn(after, d), win))
      && (win.Duration() > 0 ==>
            GapOf(after, d, win).unknown.numerator <= GapOf(before, d, win).unknown.numerator)
  {
    hide StateAt;
    hide WindowOf;
    hide AtMost;
    hide GapOf;
    EventsOnlyExtend(s0, ops, i, j, d);
    MoreEventsShowMore(StateAt(s0, ops, i).devices, StateAt(s0, ops, j).devices, d, win);
  }

  /** A device that has all the events of before shows no less time and no more unknown. */
  lemma MoreEventsShowMore(before: map<Id, Device>, after: map<Id, Device>, d: Id, win: Interval)
    requires forall e :: e in EventsIn(before, d) ==> e in EventsIn(after, d)
    ensures AtMost(WindowOf(EventsIn(before, d), win), WindowOf(EventsIn(after, d), win))
    ensures win.Duration() > 0 ==>
      GapOf(after, d, win).unknown.numerator <= GapOf(before, d, win).unknown.numerator
  {
    hide WindowOf;
    hide AtMost;
    hide GapOf;
    hide EventsIn;
    WindowsGrow(EventsIn(before, d), EventsIn(after, d), win, win);
    TicksGrow(EventsIn(before, d), EventsIn(after, d), ANY, win, win);
    if win.Duration() > 0 {
      UnknownIsTheRest(before, d, win);
      UnknownIsTheRest(after, d, win);
    }
  }

  /** The unknown numerator is the span less the ticks any event covers, with or without an accumulator. */
  lemma UnknownIsTheRest(devices: map<Id, Device>, d: Id, win: Interval)
    requires win.Duration() > 0
    ensures GapOf(devices, d, win).unknown
         == Ratio(win.Duration() - Time(EventsIn(devices, d), ANY, win), win.Duration())
  {
    hide WindowOf;
    if d !in devices {
      assert Ticks([], ANY, win) == {};
    }
  }

  /** A rejected ingest changes no window, no gap and no history. */
  lemma RejectionChangesNothing(s: State, o: Observation, d: Id, win: Interval)
    requires Ingest(s, false, o).status != Ok
    ensures var t := Ingest(s, false, o).state;
      && WindowOf(EventsIn(t.devices, d), win) == WindowOf(EventsIn(s.devices, d), win)
      && GapOf(t.devices, d, win) == GapOf(s.devices, d, win)
      && t.history == s.history
  {
    hide Ingest;
    IngestFrame(s, false, o);
  }

  // ----- conservation per device -----

  function Count(flag: bool): nat { if flag then 1 else 0 }

  /** Accepted begins of device d among the first n. */
  function Begins(log: seq<Observation>, n: nat, d: Id): nat
    requires n <= |log|
  {
    if n == 0 then 0 else Begins(log, n - 1, d) + Count(log[n - 1].device == d && IsBegin(log[n - 1].kind))
  }

  function Ends(log: seq<Observation>, n: nat, d: Id): nat
    requires n <= |log|
  {
    if n == 0 then 0 else Ends(log, n - 1, d) + Count(log[n - 1].device == d && IsEnd(log[n - 1].kind))
  }

  /** Begins that found a pending begin of their key and replaced it. */
  function Overwritten(log: seq<Observation>, n: nat, d: Id): nat
    requires n <= |log|
  {
    if n == 0 then 0 else
    Overwritten(log, n - 1, d)
    + Count(log[n - 1].device == d && IsBegin(log[n - 1].kind) && OpenIndex(log, n - 1, KeyOf(log[n - 1])).Some?)
  }

  /** Ends that found no pending begin. */
  function Orphans(log: seq<Observation>, n: nat, d: Id): nat
    requires n <= |log|
  {
    if n == 0 then 0 else
    Orphans(log, n - 1, d)
    + Count(log[n - 1].device == d && IsEnd(log[n - 1].kind) && OpenIndex(log, n - 1, KeyOf(log[n - 1])).None?)
  }

  ghost predicate Balanced(devices: map<Id, Device>, log: seq<Observation>, n: nat, d: Id)
    requires n <= |log|
  {
    var events := |EventsIn(devices, d)|;
    var open := if d in devices then |devices[d].open| else 0;
    && Begins(log, n, d) == events + open + Overwritten(log, n, d)
    && Ends(log, n, d) == events + Orphans(log, n, d)
  }

  lemma OpenCounts(open: map<IntervalKey, OpenEvent>, key: IntervalKey, e: OpenEvent)
    ensures |open[key := e]| == |open| + Count(key !in open)
    ensures |open - {key}| == |open| - Count(key in open)
  {
    if key in open {
      assert open[key := e].Keys == open.Keys;
      assert (open - {key}).Keys == open.Keys - {key};
      assert |open[key := e]| == |open[key := e].Keys| && |open| == |open.Keys|;
      assert |open - {key}| == |(open - {key}).Keys|;
    } else {
      assert open[key := e].Keys == open.Keys + {key};
      assert |open[key := e]| == |open[key := e].Keys| && |open| == |open.Keys|;
      assert open - {key} == open;
    }
  }

  lemma BookBalances(d: Device, o: Observation)
    ensures var b := Book(d, o);
      && |b.events| == |d.events| + Count(IsEnd(o.kind) && KeyOf(o) in d.open)
      && |b.open| == |d.open| + Count(IsBegin(o.kind) && KeyOf(o) !in d.open)
                              - Count(IsEnd(o.kind) && KeyOf(o) in d.open)
  {
    CategoryRules(o.kind, 0, 0);
    BookIntervals(d, o);
    OpenCounts(d.open, KeyOf(o), OpenOf(o));
    hide Book;
    hide Close;
    hide OpenOf;
    hide KeyOf;
    hide IsBegin;
    hide IsEnd;
  }

  lemma AccumulateBalances(devices: map<Id, Device>, log: seq<Observation>, n: nat, d: Id)
    requires n < |log| && d != 0 && AllRead(devices, log, n) && Balanced(devices, log, n, d)
    ensures Balanced(Accumulate(devices, log[n]), log, n + 1, d)
  {
    hide Begins;
    hide Ends;
    hide Overwritten;
    hide Orphans;
    hide Book;
    hide Touch;
    hide AllRead;
    hide OpenIndex;
    hide KeyOf;
    hide IsBegin;
    hide IsEnd;
    var o := log[n];
    CategoryRules(o.kind, 0, 0);
    CountersStep(log, n, d);
    if o.device == d {
      TouchKeepsIntervals(devices, o);
      PendingIsOpen(devices, log, n);
      BookBalances(Touch(devices, o), o);
    } else {
      assert EventsIn(Accumulate(devices, o), d) == EventsIn(devices, d);
    }
  }

  /** An entry is open under the key of position n exactly when the log has a pending begin of it. */
  lemma PendingIsOpen(devices: map<Id, Device>, log: seq<Observation>, n: nat)
    requires n < |log| && AllRead(devices, log, n)
    ensures KeyOf(log[n]) in Touch(devices, log[n]).open <==> OpenIndex(log, n, KeyOf(log[n])).Some?
  {
    hide AllRead;
    hide Touch;
    hide OpenIndex;
    hide OpenOf;
    hide EventsOf;
    TouchReads(devices, log, n, log[n]);
    assert KeyOf(log[n]).device == log[n].device;
  }

  lemma CountersStep(log: seq<Observation>, n: nat, d: Id)
    requires n < |log|
    ensures var o := log[n];
      var begins, ends := o.device == d && IsBegin(o.kind), o.device == d && IsEnd(o.kind);
      var pending := OpenIndex(log, n, KeyOf(o)).Some?;
      && Begins(log, n + 1, d) == Begins(log, n, d) + Count(begins)
      && Ends(log, n + 1, d) == Ends(log, n, d) + Count(ends)
      && Overwritten(log, n + 1, d) == Overwritten(log, n, d) + Count(begins && pending)
      && Orphans(log, n + 1, d) == Orphans(log, n, d) + Count(ends && !pending)
  {
    hide IsBegin;
    hide IsEnd;
    hide OpenIndex;
    hide KeyOf;
  }

  lemma {:induction false} FoldBalances(log: seq<Observation>, n: nat, d: Id)
    requires n <= |log| && d != 0
    ensures Balanced(DevicesOf(log, n), log, n, d)
  {
    hide Accumulate;
    hide AllRead;
    if n > 0 {
      FoldBalances(log, n - 1, d);
      FoldReads(log, n - 1);
      AccumulateBalances(DevicesOf(log, n - 1), log, n - 1, d);
    }
  }

  /**
   In every reachable state, per device: accepted begins are closed, open or overwritten, and
   accepted ends closed something or were orphans.
   */
  lemma {:induction false} DevicesBalance(limits: Limits, epoch: u64, generation: u64, ops: seq<Op>, i: nat, d: Id)
    requires i <= |ops| && d != 0
    ensures var s0 := Init(limits, epoch, generation);
      Balanced(StateAt(s0, ops, i).devices, LogAt(s0, ops, i), |LogAt(s0, ops, i)|, d)
  {
    hide StateAt;
    hide LogAt;
    hide DevicesOf;
    hide WellFormed;
    hide Balanced;
    RunFaithful(limits, epoch, generation, ops, i);
    FoldBalances(LogAt(Init(limits, epoch, generation), ops, i), |LogAt(Init(limits, epoch, generation), ops, i)|, d);
  }
}
