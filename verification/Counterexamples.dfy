/** Concrete runs that reach the states in which two expectations about the engine fail. */
module Counterexamples {
  import opened Words
  import opened Intervals
  import opened Observations
  import opened Engine
  import opened Machine
  import opened Reachability
  import opened Generations
  import opened LogReading
  import opened WindowTheorems
  import opened Windows
  import opened EndToEnd
  import opened Persistence
  import opened Timeline
  import Interleaving
  import DedupWindow

  /** An observation of source 1 about device 1, everything at generation 1 and epoch 1. */
  function Mark(id: Id, kind: u8, workload: Id, begin: u64, end: u64, state: u8): Observation {
    Observation(id, 0, 1, kind, begin, end, 1, 1, 1, 1, 0, 0, 0, 0, workload, 1, 0, 0, 0, 0, 0, 0, 0, 0, 0,
                0, 0, 0, 0, 0, 0, 0, 0, 0, 0, state, 0, 0, 0, 0, 0, UNKNOWN_DEVICE_STATE, 0, 0, 0, 0, 0, 0, 0)
  }

  /** One source under one authority, and every generation at most 1. */
  ghost predicate Plain(s: State) {
    && s.epoch == 1
    && (1 in s.sources ==> s.sources[1].generation == 1 && s.sources[1].boot == 0 && s.sources[1].connected)
    && (forall d: Domain, id :: id in Gens(s, d) ==> Gens(s, d)[id] <= 1)
  }

  predicate PlainObservation(o: Observation) {
    && o.coordinatorEpoch == 1 && o.source == 1 && o.sourceGeneration == 1 && o.workerBoot == 0
    && o.deviceGeneration == 1 && o.workloadGeneration == 1 && o.evidence == 0
  }

  /** In a plain state a plain observation is only refused as duplicate or malformed. */
  lemma PlainAnswers(s: State, o: Observation)
    requires Plain(s) && PlainObservation(o)
    ensures var r := Ingest(s, false, o);
      && r.status == (if o.id in s.dedup then DuplicateObservation else if WellFormed(o) then Ok else InvalidInput)
      && Plain(r.state)
  {
    hide Accumulate;
    hide Authorize;
    hide GateGenerations;
    hide Commit;
    hide WellFormed;
    Interleaving.AuthorizeIsLocal(s, o);
    AuthorizeFrame(s, false, o);
    var a := Authorize(KnowSource(s, o), false, o);
    assert forall d: Domain :: Gens(a.state, d) == Gens(s, d);
    GatesOpen(a.state, o);
    GateFrame(a.state, o);
    var g := GateGenerations(a.state, o);
    Interleaving.CommitIsLocal(g.state, o);
    CommitFrame(g.state, o);
    PlainGates(a.state, o);
    var r := Commit(g.state, o);
    assert Ingest(s, false, o) == r;
    assert forall d: Domain :: Gens(r.state, d) == Gens(g.state, d);
  }

  lemma PlainGates(s: State, o: Observation)
    requires PlainObservation(o) && GateGenerations(s, o).status == Ok
    requires forall d: Domain, id :: id in Gens(s, d) ==> Gens(s, d)[id] <= 1
    ensures var t := GateGenerations(s, o).state; forall d: Domain, id :: id in Gens(t, d) ==> Gens(t, d)[id] <= 1
  {
    hide GateGenerations;
    forall d: Domain
      ensures var t := GateGenerations(s, o).state; forall id :: id in Gens(t, d) ==> Gens(t, d)[id] <= 1
    {
      GatesSet(s, o, d);
    }
  }

  // ----- the check of the command line tool -----

  /** Two workloads on one device: wasted and retried execution over the same ten ticks. */
  function OverlappingRun(): seq<Op> {
    [IngestOp(Mark(1, EXECUTION_BEGIN, 1, 0, 0, NON_USEFUL_EXECUTION)),
     IngestOp(Mark(2, EXECUTION_BEGIN, 2, 0, 0, RETRY_EXECUTION)),
     IngestOp(Mark(3, EXECUTION_END, 1, 10, 10, NON_USEFUL_EXECUTION)),
     IngestOp(Mark(4, EXECUTION_END, 2, 10, 10, RETRY_EXECUTION))]
  }

  /** Wasted and retried execution over the ticks 0 to 9. */
  predicate Twice(events: seq<EventSpan>) {
    && |events| == 2
    && events[0].category == NON_USEFUL_EXECUTION && events[0].span == Interval(0, 10)
    && events[1].category == RETRY_EXECUTION && events[1].span == Interval(0, 10)
  }

  lemma Overlap(devices: map<Id, Device>)
    requires devices == map[]
    ensures var a := Accumulate(devices, Mark(1, EXECUTION_BEGIN, 1, 0, 0, NON_USEFUL_EXECUTION));
      var b := Accumulate(a, Mark(2, EXECUTION_BEGIN, 2, 0, 0, RETRY_EXECUTION));
      var c := Accumulate(b, Mark(3, EXECUTION_END, 1, 10, 10, NON_USEFUL_EXECUTION));
      Twice(EventsIn(Accumulate(c, Mark(4, EXECUTION_END, 2, 10, 10, RETRY_EXECUTION)), 1))
  {
    hide Touch;
    hide Book;
    var o1 := Mark(1, EXECUTION_BEGIN, 1, 0, 0, NON_USEFUL_EXECUTION);
    var o2 := Mark(2, EXECUTION_BEGIN, 2, 0, 0, RETRY_EXECUTION);
    var o3 := Mark(3, EXECUTION_END, 1, 10, 10, NON_USEFUL_EXECUTION);
    var o4 := Mark(4, EXECUTION_END, 2, 10, 10, RETRY_EXECUTION);
    var a := Accumulate(devices, o1);
    var b := Accumulate(a, o2);
    var c := Accumulate(b, o3);
    TouchKeepsIntervals(devices, o1);
    BookIntervals(Touch(devices, o1), o1);
    TouchKeepsIntervals(a, o2);
    BookIntervals(Touch(a, o2), o2);
    TouchKeepsIntervals(b, o3);
    BookIntervals(Touch(b, o3), o3);
    TouchKeepsIntervals(c, o4);
    BookIntervals(Touch(c, o4), o4);
  }

  /** A plain observation with a new id is accepted. */
  lemma PlainAccepts(s: State, o: Observation, k: nat)
    requires Plain(s) && PlainObservation(o) && WellFormed(o) && o.id == k + 1
    requires forall id :: id in s.dedup ==> id <= k
    ensures var r := Ingest(s, false, o);
      && r.status == Ok && Plain(r.state) && r.state.devices == Accumulate(s.devices, o)
      && r.state.limits == s.limits
      && (|s.history| < s.limits.maxObservations ==> r.state.history == s.history + [o])
      && (forall id :: id in r.state.dedup ==> id <= k + 1)
  {
    hide Ingest;
    hide Accumulate;
    PlainAnswers(s, o);
    IngestFrame(s, false, o);
    IngestAccepts(s, false, o);
    IngestRemembers(s, false, o);
  }

  /** The four observations are accepted, kept, and leave the two events. */
  lemma OverlappingEvents()
    ensures var s, ops := StateAt(Init(Limits(100, 100), 1, 1), OverlappingRun(), 4), OverlappingRun();
      && Twice(EventsIn(s.devices, 1))
      && s.history == [ops[0].o, ops[1].o, ops[2].o, ops[3].o]
  {
    hide Ingest;
    hide Accumulate;
    hide EventsIn;
    var s0, ops := Init(Limits(100, 100), 1, 1), OverlappingRun();
    PlainAccepts(s0, ops[0].o, 0);
    var s1 := Ingest(s0, false, ops[0].o).state;
    PlainAccepts(s1, ops[1].o, 1);
    var s2 := Ingest(s1, false, ops[1].o).state;
    PlainAccepts(s2, ops[2].o, 2);
    var s3 := Ingest(s2, false, ops[2].o).state;
    PlainAccepts(s3, ops[3].o, 3);
    assert StateAt(s0, ops, 4) == Ingest(s3, false, ops[3].o).state;
    Overlap(s0.devices);
  }

  /** What `uo validate-state` asks for: device 1 from tick 0 to tick 2000. */
  const ASKED := Interval(0, 2000)

  /** One and the same ten ticks are counted as non-useful, as retry and as busy. */
  lemma TenTicks(events: seq<EventSpan>)
    requires Twice(events)
    ensures Ticks(events, Only(NON_USEFUL_EXECUTION), ASKED) == Between(0, 10)
    ensures Ticks(events, Only(RETRY_EXECUTION), ASKED) == Between(0, 10)
    ensures Ticks(events, BUSY, ASKED) == Between(0, 10)
  {
    forall t
      ensures Active(events, Only(NON_USEFUL_EXECUTION), t) <==> 0 <= t < 10
      ensures Active(events, Only(RETRY_EXECUTION), t) <==> 0 <= t < 10
      ensures Active(events, BUSY, t) <==> 0 <= t < 10
    {
      assert events[0].span.Contains(t) <==> 0 <= t < 10;
      assert events[1].span.Contains(t) <==> 0 <= t < 10;
    }
  }

  lemma TwiceFails(events: seq<EventSpan>)
    requires Twice(events)
    ensures !CheckHolds(events, ASKED)
  {
    hide Ticks;
    TenTicks(events);
    CountBetween(0, 10);
  }

  /**
   The check is not an invariant. After this run the very question the tool asks fails it; so does
   every observatory that loads the file saved then, which it accepts, as the tool does for `--file`.
   */
  lemma CommandLineCheckCanFail(loader: State)
    ensures var s := StateAt(Init(Limits(100, 100), 1, 1), OverlappingRun(), 4);
      && !CheckHolds(EventsIn(s.devices, 1), ASKED)
      && Load(loader, Save(s)).status == Ok
      && !CheckHolds(EventsIn(Load(loader, Save(s)).state.devices, 1), ASKED)
  {
    hide CheckHolds;
    hide StateAt;
    hide Load;
    hide DevicesOf;
    hide EventsIn;
    hide Twice;
    hide Spaced;
    var s := StateAt(Init(Limits(100, 100), 1, 1), OverlappingRun(), 4);
    OverlappingEvents();
    TwiceFails(EventsIn(s.devices, 1));
    DistinctIsSpaced(s.history, DedupWindow.EffectiveCapacity(loader.limits));
    SavedStateLoads(Limits(100, 100), 1, 1, OverlappingRun(), 4, loader);
    LoadedTwice(s.history);
    TwiceFails(EventsIn(Load(loader, Save(s)).state.devices, 1));
  }

  lemma LoadedTwice(log: seq<Observation>)
    requires var ops := OverlappingRun(); log == [ops[0].o, ops[1].o, ops[2].o, ops[3].o]
    ensures Twice(EventsIn(DevicesOf(log, |log|), 1))
  {
    hide Accumulate;
    hide DevicesOf;
    hide EventsIn;
    hide Twice;
    FourAccumulated(log);
    Overlap(map[]);
  }

  lemma FourAccumulated(log: seq<Observation>)
    requires |log| == 4
    ensures DevicesOf(log, 4)
         == Accumulate(Accumulate(Accumulate(Accumulate(map[], log[0]), log[1]), log[2]), log[3])
  {
    hide Accumulate;
    assert DevicesOf(log, 1) == Accumulate(map[], log[0]);
    assert DevicesOf(log, 2) == Accumulate(DevicesOf(log, 1), log[1]);
    assert DevicesOf(log, 3) == Accumulate(DevicesOf(log, 2), log[2]);
  }

  // ----- a timeline that does not come back -----

  /** With a history of one: the end arrives when the begin has left, but closed it before. */
  function ForgettingRun(): seq<Op> {
    [IngestOp(Mark(1, EXECUTION_BEGIN, 1, 0, 0, NON_USEFUL_EXECUTION)),
     IngestOp(Mark(2, EXECUTION_END, 1, 10, 10, NON_USEFUL_EXECUTION))]
  }

  lemma ForgettingState()
    ensures var s, ops := StateAt(Init(Limits(1, 100), 1, 1), ForgettingRun(), 2), ForgettingRun();
      && s.history == [ops[1].o]
      && s.devices == Accumulate(Accumulate(map[], ops[0].o), ops[1].o)
  {
    hide Ingest;
    hide Accumulate;
    var s0, ops := Init(Limits(1, 100), 1, 1), ForgettingRun();
    PlainAccepts(s0, ops[0].o, 0);
    var s1 := Ingest(s0, false, ops[0].o).state;
    PlainAccepts(s1, ops[1].o, 1);
    IngestAccepts(s1, false, ops[1].o);
    assert StateAt(s0, ops, 2) == Ingest(s1, false, ops[1].o).state;
  }

  lemma ForgettingEvents()
    ensures var o1, o2 := ForgettingRun()[0].o, ForgettingRun()[1].o;
      var events := EventsIn(Accumulate(Accumulate(map[], o1), o2), 1);
      && |events| == 1 && events[0].span == Interval(0, 10)
      && forall d :: EventsIn(Accumulate(map[], o2), d) == []
  {
    hide Touch;
    hide Book;
    var o1, o2 := ForgettingRun()[0].o, ForgettingRun()[1].o;
    var a := Accumulate(map[], o1);
    TouchKeepsIntervals(map[], o1);
    BookIntervals(Touch(map[], o1), o1);
    TouchKeepsIntervals(a, o2);
    BookIntervals(Touch(a, o2), o2);
    TouchKeepsIntervals(map[], o2);
    BookIntervals(Touch(map[], o2), o2);
  }

  /**
   A replay need not reconstruct the timeline: every observatory accepts the file of this one, which
   shows an interval in the window [0, 2000), and then shows none at all.
   */
  lemma TimelineCanBeLost(loader: State, saved: seq<Id>, loaded: seq<Id>)
    requires var s := StateAt(Init(Limits(1, 100), 1, 1), ForgettingRun(), 2);
      Enumerates(saved, s.devices) && Enumerates(loaded, Load(loader, Save(s)).state.devices)
    ensures var s := StateAt(Init(Limits(1, 100), 1, 1), ForgettingRun(), 2);
      var t := Load(loader, Save(s)).state;
      && Load(loader, Save(s)).status == Ok
      && Entries(s.devices, saved, ASKED) != []
      && Entries(t.devices, loaded, ASKED) == []
  {
    hide StateAt;
    hide Load;
    hide Accumulate;
    hide Entries;
    hide EventsIn;
    hide Spaced;
    var s := StateAt(Init(Limits(1, 100), 1, 1), ForgettingRun(), 2);
    var t := Load(loader, Save(s)).state;
    ForgettingState();
    ForgettingEvents();
    DistinctIsSpaced(s.history, DedupWindow.EffectiveCapacity(loader.limits));
    SavedStateLoads(Limits(1, 100), 1, 1, ForgettingRun(), 2, loader);
    OneAccumulated(s.history);
    var e := EventsIn(s.devices, 1)[0];
    EventsNeedAccumulator(s.devices, 1);
    EntriesListShown(s.devices, saved, ASKED, Entry(1, e));
    NoEventsNoEntries(t.devices, loaded, ASKED);
  }

  lemma OneAccumulated(log: seq<Observation>)
    requires |log| == 1
    ensures DevicesOf(log, 1) == Accumulate(map[], log[0])
  {
    hide Accumulate;
    assert DevicesOf(log, 0) == map[];
  }

  lemma EventsNeedAccumulator(devices: map<Id, Device>, d: Id)
    ensures EventsIn(devices, d) != [] ==> d in devices
  {
  }

  lemma {:induction false} NoEventsNoEntries(devices: map<Id, Device>, order: seq<Id>, win: Interval)
    requires forall d :: EventsIn(devices, d) == []
    ensures Entries(devices, order, win) == []
    decreases |order|
  {
    hide EventsIn;
    if |order| > 0 {
      NoEventsNoEntries(devices, order[..|order| - 1], win);
    }
  }

  // ----- an observatory that cannot load its own file -----

  /** With a window of one id: accept 7, push it out with a malformed 8, accept 7 again. */
  function EvictingRun(): seq<Op> {
    [IngestOp(Mark(7, DEVICE_SAMPLE, 0, 0, 0, UNKNOWN_CATEGORY)),
     IngestOp(Mark(8, DEVICE_SAMPLE, 0, 1, 0, UNKNOWN_CATEGORY)),
     IngestOp(Mark(7, DEVICE_SAMPLE, 0, 2, 2, UNKNOWN_CATEGORY))]
  }

  lemma EvictedIdReturns()
    ensures var ops := EvictingRun();
      StateAt(Init(Limits(10, 1), 1, 1), ops, 3).history == [ops[0].o, ops[2].o]
  {
    hide Ingest;
    hide Accumulate;
    var s0, ops := Init(Limits(10, 1), 1, 1), EvictingRun();
    PlainAnswers(s0, ops[0].o);
    IngestAccepts(s0, false, ops[0].o);
    IngestRemembers(s0, false, ops[0].o);
    IngestFrame(s0, false, ops[0].o);
    var s1 := Ingest(s0, false, ops[0].o).state;
    PlainAnswers(s1, ops[1].o);
    IngestRemembers(s1, false, ops[1].o);
    IngestFrame(s1, false, ops[1].o);
    var s2 := Ingest(s1, false, ops[1].o).state;
    assert s2.dedup == {8};
    PlainAnswers(s2, ops[2].o);
    IngestAccepts(s2, false, ops[2].o);
    assert StateAt(s0, ops, 3) == Ingest(s2, false, ops[2].o).state;
  }

  /** A live observatory can hold a history its own loader refuses: the malformed id is not in the file. */
  lemma OwnFileRefused()
    ensures var s := StateAt(Init(Limits(10, 1), 1, 1), EvictingRun(), 3);
      Load(s, Save(s)).status != Ok
  {
    hide StateAt;
    hide Load;
    var limits, ops := Limits(10, 1), EvictingRun();
    var s := StateAt(Init(limits, 1, 1), ops, 3);
    EvictedIdReturns();
    DedupWindow.RunWindow(limits, 1, 1, ops, 3);
    SavedStateLoads(limits, 1, 1, ops, 3, s);
    assert s.history[0].id == s.history[1].id;
  }
}
