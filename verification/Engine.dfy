/**
 The evidence engine as a state machine on values: what one ingest, or one source
 lifecycle call, does to the observatory. Every call runs under one exclusive lock,
 so it is one atomic step.
 */
module Engine {
  import opened Words
  import opened Intervals
  import opened Observations

  // ----- what the observatory holds -----

  /** Everything that couples a begin to its end; state and classification are not part of it. */
  datatype IntervalKey = IntervalKey(
    source: Id, device: Id, kind: u8, workload: Id, attempt: Id, reservation: Id,
    residency: Id, transfer: Id, recovery: Id, allocation: Id)

  /** A closed interval. */
  datatype EventSpan = EventSpan(
    span: Interval, category: u8, source: Id, sourceGeneration: u64, workload: Id, workloadGeneration: u64,
    deviceGeneration: u64, provenance: u8, observation: Id, ratio: u64, bytes: u64)

  /** A begun interval that waits for its end. */
  datatype OpenEvent = OpenEvent(
    begin: Tick, category: u8, observation: Id, source: Id, sourceGeneration: u64, workload: Id,
    workloadGeneration: u64, deviceGeneration: u64, provenance: u8, ratio: u64, bytes: u64)

  datatype SamplePoint = SamplePoint(
    at: Tick, percent: u64, bytes: u64, capacityBytes: u64, wallTime: i64, provenance: u8, source: Id)

  datatype UsefulBand = UsefulBand(span: Interval, ratio: u64, source: Id, sourceGeneration: u64, provenance: u8)

  datatype Capacity = Capacity(physical: u64, published: u64, available: u64, stranded: u64, fitQualified: u64)

  datatype Device = Device(
    authoritative: Id, authoritativeGeneration: u64, capacity: Capacity, physicalState: u8,
    vendorPercent: u64, vendorDefined: bool, lastSampleTick: Tick,
    events: seq<EventSpan>, open: map<IntervalKey, OpenEvent>,
    samples: seq<SamplePoint>, bands: seq<UsefulBand>)

  datatype SourceState = SourceState(generation: u64, boot: u64, connected: bool, lastObservation: Tick)

  /** The two bounds that are enforced, as size_t. */
  datatype Limits = Limits(maxObservations: u64, dedupCapacity: u64)

  /** uint64 counters; each wraps modulo 2^64. */
  datatype Counters = Counters(
    accepted: u64, rejected: u64, duplicates: u64, stale: u64,
    disconnects: u64, reconnects: u64, dropped: u64)

  datatype State = State(
    limits: Limits, epoch: u64, generation: u64,
    sources: map<Id, SourceState>, devices: map<Id, Device>,
    deviceGens: map<Id, u64>, workloadGens: map<Id, u64>, evidenceGens: map<Id, u64>,
    history: seq<Observation>, dedup: set<Id>, dedupOrder: seq<Id>, counters: Counters)

  datatype Status =
    | Ok
    | InvalidInput
    | DuplicateObservation
    | StaleAuthority
    | StaleEvidence
    | SourceDisconnected
    | PersistenceCorrupt

  datatype Outcome = Outcome(state: State, status: Status)

  const NO_COUNTS := Counters(0, 0, 0, 0, 0, 0, 0)

  function Init(limits: Limits, epoch: u64, generation: u64): State {
    State(limits, epoch, generation, map[], map[], map[], map[], map[], [], {}, [], NO_COUNTS)
  }

  function CountStale(s: State): State {
    s.(counters := s.counters.(stale := WrapAdd(s.counters.stale, 1)))
  }

  function CountRejected(s: State): State {
    s.(counters := s.counters.(rejected := WrapAdd(s.counters.rejected, 1)))
  }

  // ----- source authority -----

  /** An unheard-of source is created from the observation, connected. */
  function KnowSource(s: State, o: Observation): State {
    if o.source in s.sources then s
    else s.(sources := s.sources[o.source := SourceState(o.sourceGeneration, o.workerBoot, true, 0)])
  }

  predicate SameAuthority(src: SourceState, o: Observation) {
    o.sourceGeneration == src.generation && o.workerBoot == src.boot
  }

  /**
   During replay the observation's authority is adopted. Otherwise generation and boot must equal
   the source's; only a disconnected source may come back with different ones.
   */
  function Authorize(s: State, historical: bool, o: Observation): Outcome
    requires o.source in s.sources
  {
    var src := s.sources[o.source];
    if historical then
      Outcome(s.(sources := s.sources[o.source :=
        src.(generation := o.sourceGeneration, boot := o.workerBoot, connected := true)]), Ok)
    else if SameAuthority(src, o) then
      if src.connected then Outcome(s, Ok) else Outcome(CountRejected(s), SourceDisconnected)
    else if src.connected then Outcome(CountStale(s), StaleAuthority)
    else
      var back := SourceState(o.sourceGeneration, o.workerBoot, true, o.begin);
      Outcome(s.(sources := s.sources[o.source := back],
                 counters := s.counters.(reconnects := WrapAdd(s.counters.reconnects, 1))), Ok)
  }

  // ----- generations -----

  /** A valid identity must not go back in generation; a newer generation is remembered. */
  function Gate(gens: map<Id, u64>, id: Id, generation: u64): Option<map<Id, u64>> {
    if id == 0 then Some(gens)
    else if id !in gens then Some(gens[id := generation])
    else if generation < gens[id] then None
    else if generation > gens[id] then Some(gens[id := generation])
    else Some(gens)
  }

  /** Device, workload and evidence gates in turn; what an earlier gate remembered stays. */
  function GateGenerations(s: State, o: Observation): Outcome {
    var d := Gate(s.deviceGens, o.device, o.deviceGeneration);
    if d.None? then Outcome(CountStale(s), StaleEvidence) else
    var s1 := s.(deviceGens := d.value);
    var w := Gate(s1.workloadGens, o.workload, o.workloadGeneration);
    if w.None? then Outcome(CountStale(s1), StaleEvidence) else
    var s2 := s1.(workloadGens := w.value);
    var e := Gate(s2.evidenceGens, o.evidence, o.evidenceGeneration);
    if e.None? then Outcome(CountStale(s2), StaleEvidence) else
    Outcome(s2.(evidenceGens := e.value), Ok)
  }

  // ----- the dedup window -----

  /** The oldest id leaves when the window is full. */
  function Remember(s: State, id: Id): State {
    var full := |s.dedup| >= s.limits.dedupCapacity && s.dedupOrder != [];
    var order := if full then s.dedupOrder[1..] else s.dedupOrder;
    var seen := if full then s.dedup - {s.dedupOrder[0]} else s.dedup;
    s.(dedup := seen + {id}, dedupOrder := order + [id])
  }

  // ----- the device accumulator -----

  const EMPTY_CAPACITY := Capacity(0, 0, 0, 0, 0)

  function NewDevice(o: Observation): Device {
    Device(o.source, o.sourceGeneration, EMPTY_CAPACITY, UNKNOWN_DEVICE_STATE, 0, false, 0, [], map[], [], [])
  }

  /** The accumulator of the observed device, after the authoritative source and physical state are noted. */
  function Touch(devices: map<Id, Device>, o: Observation): Device {
    var d := if o.device in devices then devices[o.device] else NewDevice(o);
    var d1 := if d.authoritative == 0 || o.source == d.authoritative
      then d.(authoritative := o.source, authoritativeGeneration := o.sourceGeneration) else d;
    if o.deviceState != UNKNOWN_DEVICE_STATE then d1.(physicalState := o.deviceState) else d1
  }

  /** The key under which a begin opens, or that an end looks for. */
  function KeyOf(o: Observation): IntervalKey {
    IntervalKey(o.source, o.device, PairKind(o.kind), o.workload, o.attempt, o.reservation,
                o.residency, o.transfer, o.recovery, o.allocation)
  }

  function OpenOf(o: Observation): OpenEvent {
    OpenEvent(o.begin, o.state, o.id, o.source, o.sourceGeneration, o.workload,
              o.workloadGeneration, o.deviceGeneration, o.provenance, o.ratio, o.bytes)
  }

  /** The span from the begin to the later end tick, never inverted. */
  function CloseSpan(begin: Tick, o: Observation): Interval {
    var end := if o.end > o.begin then o.end else o.begin;
    Interval(begin, if end < begin then begin else end)
  }

  /** The end decides the category, and falls back to the begin's. */
  function CloseCategory(begun: u8, o: Observation): u8 {
    var category := DefaultCategory(o.kind, o.classification, o.state);
    if category == UNKNOWN_CATEGORY && begun != UNKNOWN_CATEGORY then begun else category
  }

  function Close(e: OpenEvent, o: Observation): EventSpan {
    EventSpan(CloseSpan(e.begin, o), CloseCategory(e.category, o), e.source, e.sourceGeneration,
              e.workload, e.workloadGeneration, e.deviceGeneration, e.provenance, e.observation, e.ratio, e.bytes)
  }

  const MAX_SAMPLES: nat := 1024

  function AddSample(d: Device, o: Observation): Device {
    var kept := if |d.samples| > MAX_SAMPLES then d.samples[1..] else d.samples;
    var point := SamplePoint(o.begin, o.percent, o.bytes, o.capacityBytes, o.wallTime, o.provenance, o.source);
    var d1 := d.(samples := kept + [point]);
    if o.kind == DEVICE_SAMPLE
    then d1.(vendorPercent := o.percent, vendorDefined := true, lastSampleTick := o.begin) else d1
  }

  /** What one accepted observation does to its device. */
  function Book(d: Device, o: Observation): Device {
    if IsBegin(o.kind) then d.(open := d.open[KeyOf(o) := OpenOf(o)])
    else if IsEnd(o.kind) then
      if KeyOf(o) in d.open
      then d.(events := d.events + [Close(d.open[KeyOf(o)], o)], open := d.open - {KeyOf(o)}) else d
    else if o.kind == DEVICE_SAMPLE || o.kind == WORKLOAD_SAMPLE then AddSample(d, o)
    else if o.kind == MEMORY_SAMPLE then
      if o.capacityBytes > 0
      then d.(capacity := d.capacity.(physical := o.capacityBytes, available := o.bytes)) else d
    else if o.kind == USEFUL_WORK_SUMMARY || o.kind == EFFICIENCY_SUMMARY then
      if o.end > o.begin
      then
        var band := UsefulBand(Interval(o.begin, o.end), o.ratio, o.source, o.sourceGeneration, o.provenance);
        d.(bands := d.bands + [band])
      else d
    else if o.kind == CAPACITY_PUBLISHED then
      d.(capacity := d.capacity.(published := o.capacityBytes, physical := Max(d.capacity.physical, o.capacityBytes)))
    else if o.kind == CAPACITY_INVALIDATED then d.(capacity := d.capacity.(published := 0))
    else if o.kind == FRAGMENTATION_OBSERVED then
      d.(capacity := d.capacity.(stranded := o.bytes, fitQualified := o.capacityBytes))
    else if o.kind == FRAGMENTATION_CLEARED then d.(capacity := d.capacity.(stranded := 0))
    else d
  }

  /** The accumulators after one accepted observation; without a valid device nothing changes. */
  function Accumulate(devices: map<Id, Device>, o: Observation): map<Id, Device> {
    if o.device == 0 then devices else devices[o.device := Book(Touch(devices, o), o)]
  }

  // ----- ingest -----

  function PushHistory(s: State, o: Observation): State {
    var history := s.history + [o];
    if |history| > s.limits.maxObservations
    then s.(history := history[1..], counters := s.counters.(dropped := WrapAdd(s.counters.dropped, 1)))
    else s.(history := history)
  }

  /** An observation that passed every check enters the accumulators and the history. */
  function Accept(s: State, o: Observation): State
    requires o.source in s.sources
  {
    var src := s.sources[o.source];
    var s1 := s.(sources := s.sources[o.source := src.(lastObservation := Max(src.lastObservation, o.begin))],
                 devices := Accumulate(s.devices, o));
    var s2 := PushHistory(s1, o);
    s2.(counters := s2.counters.(accepted := WrapAdd(s2.counters.accepted, 1)))
  }

  /** Duplicate check, then the id is remembered, and only then the malformed check. */
  function Commit(s: State, o: Observation): Outcome
    requires o.source in s.sources
  {
    if o.id in s.dedup then
      Outcome(s.(counters := s.counters.(duplicates := WrapAdd(s.counters.duplicates, 1))), DuplicateObservation)
    else
      var s1 := Remember(s, o.id);
      if !WellFormed(o) then Outcome(CountRejected(s1), InvalidInput)
      else Outcome(Accept(s1, o), Ok)
  }

  function Ingest(s: State, historical: bool, o: Observation): Outcome {
    if !historical && o.coordinatorEpoch != s.epoch then Outcome(CountStale(s), StaleAuthority) else
    var a := Authorize(KnowSource(s, o), historical, o);
    if a.status != Ok then a else
    var g := GateGenerations(a.state, o);
    if g.status != Ok then g else
    Commit(g.state, o)
  }

  // ----- source lifecycle -----

  function Register(s: State, id: Id, generation: u64, boot: u64, lastObservation: Tick): State {
    s.(sources := s.sources[id := SourceState(generation, boot, true, lastObservation)])
  }

  function MarkConnected(s: State, id: Id, t: Tick): Outcome {
    if id !in s.sources then Outcome(s, InvalidInput)
    else
      var src := s.sources[id];
      var counters := if src.connected then s.counters
        else s.counters.(reconnects := WrapAdd(s.counters.reconnects, 1));
      Outcome(s.(sources := s.sources[id := src.(connected := true, lastObservation := t)], counters := counters), Ok)
  }

  function MarkDisconnected(s: State, id: Id, t: Tick): Outcome {
    if id !in s.sources then Outcome(s, InvalidInput)
    else
      var src := s.sources[id];
      var counters := if src.connected
        then s.counters.(disconnects := WrapAdd(s.counters.disconnects, 1)) else s.counters;
      Outcome(s.(sources := s.sources[id := src.(connected := false, lastObservation := t)], counters := counters), Ok)
  }

  function AdvanceEpoch(s: State): State {
    s.(epoch := WrapAdd(s.epoch, 1))
  }
}
