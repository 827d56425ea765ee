/** The observatory object: fields updated in place, every call proved against the state machine on values. */
module Observatory {
  import opened Words
  import opened Intervals
  import opened Observations
  import opened Engine
  import opened Machine
  import opened Windows
  import opened EndToEnd
  import opened Canonical
  import Timeline
  import FileFormat
  import Sorting
  import Reachability

  class UtilizationObservatory {
    const limits: Limits
    var epoch: u64
    const generation: u64
    var sources: map<Id, SourceState>
    var devices: map<Id, Device>
    var deviceGens: map<Id, u64>
    var workloadGens: map<Id, u64>
    var evidenceGens: map<Id, u64>
    var history: seq<Observation>
    var dedup: set<Id>
    var dedupOrder: seq<Id>
    var historicalMode: bool
    var counters: Counters

    /** The abstract value of the fields. */
    function Abs(): State
      reads this
    {
      State(limits, epoch, generation, sources, devices, deviceGens, workloadGens, evidenceGens,
            history, dedup, dedupOrder, counters)
    }

    constructor (limits: Limits, epoch: u64, generation: u64)
      ensures Abs() == Init(limits, epoch, generation) && !historicalMode
    {
      this.limits, this.epoch, this.generation := limits, epoch, generation;
      sources, devices := map[], map[];
      deviceGens, workloadGens, evidenceGens := map[], map[], map[];
      history, dedup, dedupOrder := [], {}, [];
      historicalMode := false;
      counters := NO_COUNTS;
    }

    // ----- source lifecycle -----

    method AdvanceEpoch()
      modifies this
      ensures Abs() == Engine.AdvanceEpoch(old(Abs())) && historicalMode == old(historicalMode)
    {
      epoch := WrapAdd(epoch, 1);
    }

    method RegisterSource(id: Id, sourceGeneration: u64, boot: u64, lastObservation: Tick)
      modifies this
      ensures Abs() == Register(old(Abs()), id, sourceGeneration, boot, lastObservation)
      ensures historicalMode == old(historicalMode)
    {
      var st := SourceState(sourceGeneration, boot, true, lastObservation);
      sources := sources[id := st];
    }

    method MarkSourceConnected(id: Id, t: Tick) returns (status: Status)
      modifies this
      ensures Outcome(Abs(), status) == MarkConnected(old(Abs()), id, t) && historicalMode == old(historicalMode)
    {
      if id !in sources {
        return InvalidInput;
      }
      if !sources[id].connected {
        counters := counters.(reconnects := WrapAdd(counters.reconnects, 1));
      }
      sources := sources[id := sources[id].(connected := true, lastObservation := t)];
      return Ok;
    }

    method MarkSourceDisconnected(id: Id, t: Tick) returns (status: Status)
      modifies this
      ensures Outcome(Abs(), status) == MarkDisconnected(old(Abs()), id, t) && historicalMode == old(historicalMode)
    {
      if id !in sources {
        return InvalidInput;
      }
      if sources[id].connected {
        counters := counters.(disconnects := WrapAdd(counters.disconnects, 1));
      }
      sources := sources[id := sources[id].(connected := false, lastObservation := t)];
      return Ok;
    }

    // ----- ingest -----

    method Ingest(o: Observation) returns (status: Status)
      requires !historicalMode
      modifies this
      ensures Outcome(Abs(), status) == Engine.Ingest(old(Abs()), false, o) && !historicalMode
    {
      status := IngestLocked(o);
    }

    /** Epoch gate, source authority, generations, duplicate check, well-formedness, acceptance, in this order. */
    method IngestLocked(o: Observation) returns (status: Status)
      modifies this
      ensures Outcome(Abs(), status) == Engine.Ingest(old(Abs()), historicalMode, o)
      ensures historicalMode == old(historicalMode)
    {
      hide Authorize;
      hide GateGenerations;
      hide Commit;
      if !historicalMode && o.coordinatorEpoch != epoch {
        counters := counters.(stale := WrapAdd(counters.stale, 1));
        return StaleAuthority;
      }
      if o.source !in sources {
        sources := sources[o.source := SourceState(o.sourceGeneration, o.workerBoot, true, 0)];
      }
      assert Abs() == KnowSource(old(Abs()), o);
      status := CheckAuthority(o);
      if status != Ok {
        return;
      }
      status := CheckGenerations(o);
      if status != Ok {
        return;
      }
      Reachability.AuthorizeFrame(old(Abs()), historicalMode, o);
      Reachability.GateFrame(Authorize(KnowSource(old(Abs()), o), historicalMode, o).state, o);
      status := CommitObservation(o);
    }

    method CheckAuthority(o: Observation) returns (status: Status)
      requires o.source in sources
      modifies this
      ensures Outcome(Abs(), status) == Authorize(old(Abs()), historicalMode, o)
      ensures historicalMode == old(historicalMode)
    {
      var src := sources[o.source];
      if historicalMode {
        sources := sources[o.source := src.(generation := o.sourceGeneration, boot := o.workerBoot, connected := true)];
        return Ok;
      }
      var authorityOk := o.sourceGeneration == src.generation && o.workerBoot == src.boot;
      if !authorityOk && !src.connected {
        src := SourceState(o.sourceGeneration, o.workerBoot, true, o.begin);
        sources := sources[o.source := src];
        authorityOk := true;
        counters := counters.(reconnects := WrapAdd(counters.reconnects, 1));
      }
      if !authorityOk {
        counters := counters.(stale := WrapAdd(counters.stale, 1));
        return StaleAuthority;
      }
      if !src.connected {
        counters := counters.(rejected := WrapAdd(counters.rejected, 1));
        return SourceDisconnected;
      }
      return Ok;
    }

    /** Device, workload and evidence in turn; an earlier gate's update stays when a later one refuses. */
    method CheckGenerations(o: Observation) returns (status: Status)
      modifies this
      ensures Outcome(Abs(), status) == GateGenerations(old(Abs()), o)
      ensures historicalMode == old(historicalMode)
    {
      hide Gate;
      var d := PassGate(deviceGens, o.device, o.deviceGeneration);
      if d.None? {
        counters := counters.(stale := WrapAdd(counters.stale, 1));
        return StaleEvidence;
      }
      deviceGens := d.value;
      var w := PassGate(workloadGens, o.workload, o.workloadGeneration);
      if w.None? {
        counters := counters.(stale := WrapAdd(counters.stale, 1));
        return StaleEvidence;
      }
      workloadGens := w.value;
      var e := PassGate(evidenceGens, o.evidence, o.evidenceGeneration);
      if e.None? {
        counters := counters.(stale := WrapAdd(counters.stale, 1));
        return StaleEvidence;
      }
      evidenceGens := e.value;
      return Ok;
    }

    /** One generation map; None is a stale generation. */
    static method PassGate(gens: map<Id, u64>, id: Id, generation: u64) returns (r: Option<map<Id, u64>>)
      ensures r == Gate(gens, id, generation)
    {
      if id != 0 {
        if id !in gens {
          return Some(gens[id := generation]);
        } else if generation < gens[id] {
          return None;
        } else if generation > gens[id] {
          return Some(gens[id := generation]);
        }
      }
      return Some(gens);
    }

    method RememberObservationId(id: Id)
      modifies this`dedup, this`dedupOrder
      ensures Abs() == Remember(old(Abs()), id)
    {
      if |dedup| >= limits.dedupCapacity && dedupOrder != [] {
        var oldest := dedupOrder[0];
        dedupOrder := dedupOrder[1..];
        dedup := dedup - {oldest};
      }
      dedup := dedup + {id};
      dedupOrder := dedupOrder + [id];
    }

    method CommitObservation(o: Observation) returns (status: Status)
      requires o.source in sources
      modifies this
      ensures Outcome(Abs(), status) == Commit(old(Abs()), o)
      ensures historicalMode == old(historicalMode)
    {
      hide Accumulate;
      hide WellFormed;
      hide WrapAdd;
      hide PushHistory;
      hide Remember;
      if o.id in dedup {
        counters := counters.(duplicates := WrapAdd(counters.duplicates, 1));
        return DuplicateObservation;
      }
      RememberObservationId(o.id);
      if !WellFormed(o) {
        counters := counters.(rejected := WrapAdd(counters.rejected, 1));
        return InvalidInput;
      }
      var src := sources[o.source];
      sources := sources[o.source := src.(lastObservation := Max(src.lastObservation, o.begin))];
      AccumulateObservation(o);
      AppendHistory(o);
      counters := counters.(accepted := WrapAdd(counters.accepted, 1));
      return Ok;
    }

    method AppendHistory(o: Observation)
      modifies this`history, this`counters
      ensures Abs() == PushHistory(old(Abs()), o)
    {
      history := history + [o];
      if |history| > limits.maxObservations {
        history := history[1..];
        counters := counters.(dropped := WrapAdd(counters.dropped, 1));
      }
    }

    /** The per-device bookkeeping of an accepted observation. */
    method AccumulateObservation(o: Observation)
      modifies this`devices
      ensures devices == Accumulate(old(devices), o)
    {
      if o.device == 0 {
        return;
      }
      var dev := if o.device in devices then devices[o.device] else NewDevice(o);
      if dev.authoritative == 0 || o.source == dev.authoritative {
        dev := dev.(authoritative := o.source, authoritativeGeneration := o.sourceGeneration);
      }
      if o.deviceState != UNKNOWN_DEVICE_STATE {
        dev := dev.(physicalState := o.deviceState);
      }
      assert dev == Touch(old(devices), o);
      dev := BookObservation(dev, o);
      devices := devices[o.device := dev];
    }

    static method BookObservation(dev0: Device, o: Observation) returns (dev: Device)
      ensures dev == Book(dev0, o)
    {
      dev := dev0;
      if IsBegin(o.kind) {
        dev := dev.(open := dev.open[KeyOf(o) := OpenOf(o)]);
      } else if IsEnd(o.kind) {
        var key := KeyOf(o);
        if key in dev.open {
          var oe := dev.open[key];
          var end := o.begin;
          if o.end > o.begin { end := o.end; }
          if end < oe.begin { end := oe.begin; }
          var category := DefaultCategory(o.kind, o.classification, o.state);
          if category == UNKNOWN_CATEGORY && oe.category != UNKNOWN_CATEGORY { category := oe.category; }
          var ev := EventSpan(Interval(oe.begin, end), category, oe.source, oe.sourceGeneration, oe.workload,
                              oe.workloadGeneration, oe.deviceGeneration, oe.provenance, oe.observation,
                              oe.ratio, oe.bytes);
          dev := dev.(events := dev.events + [ev], open := dev.open - {key});
        }
      } else if o.kind == DEVICE_SAMPLE || o.kind == WORKLOAD_SAMPLE {
        if |dev.samples| > MAX_SAMPLES { dev := dev.(samples := dev.samples[1..]); }
        dev := dev.(samples := dev.samples +
          [SamplePoint(o.begin, o.percent, o.bytes, o.capacityBytes, o.wallTime, o.provenance, o.source)]);
        if o.kind == DEVICE_SAMPLE {
          dev := dev.(vendorPercent := o.percent, vendorDefined := true, lastSampleTick := o.begin);
        }
      } else if o.kind == MEMORY_SAMPLE {
        if o.capacityBytes > 0 {
          dev := dev.(capacity := dev.capacity.(physical := o.capacityBytes, available := o.bytes));
        }
      } else if o.kind == USEFUL_WORK_SUMMARY || o.kind == EFFICIENCY_SUMMARY {
        if o.end > o.begin {
          dev := dev.(bands := dev.bands +
            [UsefulBand(Interval(o.begin, o.end), o.ratio, o.source, o.sourceGeneration, o.provenance)]);
        }
      } else if o.kind == CAPACITY_PUBLISHED {
        dev := dev.(capacity := dev.capacity.(published := o.capacityBytes,
                                              physical := Max(dev.capacity.physical, o.capacityBytes)));
      } else if o.kind == CAPACITY_INVALIDATED {
        dev := dev.(capacity := dev.capacity.(published := 0));
      } else if o.kind == FRAGMENTATION_OBSERVED {
        dev := dev.(capacity := dev.capacity.(stranded := o.bytes, fitQualified := o.capacityBytes));
      } else if o.kind == FRAGMENTATION_CLEARED {
        dev := dev.(capacity := dev.capacity.(stranded := 0));
      }
    }

    // ----- persistence -----

    method Save() returns (file: seq<u8>)
      ensures file == Machine.Save(Abs())
    {
      file := FileFormat.SaveFile(epoch, generation, history);
    }

    /** Parses everything first; only then clears the state and replays in historical mode. */
    method Load(file: seq<u8>) returns (status: Status)
      requires !historicalMode
      modifies this
      ensures Outcome(Abs(), status) == Machine.Load(old(Abs()), file) && !historicalMode
    {
      hide FileFormat.Parse;
      hide Engine.Ingest;
      var parsed := FileFormat.LoadFile(file);
      if parsed.None? {
        return PersistenceCorrupt;
      }
      ClearState();
      historicalMode := true;
      status := ReplayAll(parsed.value);
      historicalMode := false;
      sources := map id | id in sources :: sources[id].(connected := false);
    }

    method ClearState()
      modifies this`sources, this`devices, this`deviceGens, this`workloadGens, this`evidenceGens
      modifies this`history, this`dedup, this`dedupOrder, this`counters
      ensures Abs() == Cleared(old(Abs()))
    {
      hide Cleared;
      sources, devices := map[], map[];
      deviceGens, workloadGens, evidenceGens := map[], map[], map[];
      history, dedup, dedupOrder := [], {}, [];
      counters := NO_COUNTS;
      ClearedFields(old(Abs()), Abs());
    }

    /** Stops at the first observation that is not accepted. */
    method ReplayAll(obs: seq<Observation>) returns (status: Status)
      requires historicalMode
      modifies this
      ensures Outcome(Abs(), status) == Replay(old(Abs()), obs, |obs|) && historicalMode
    {
      hide Engine.Ingest;
      status := Ok;
      var i := 0;
      while i < |obs| && status == Ok
        invariant 0 <= i <= |obs| && historicalMode
        invariant Outcome(Abs(), status) == Replay(old(Abs()), obs, i)
        decreases |obs| - i
      {
        status := IngestLocked(obs[i]);
        i := i + 1;
      }
      ReplayStuck(old(Abs()), obs, i, |obs|);
    }

    // ----- queries -----

    method DeviceWindow(d: Id, win: Interval) returns (v: UtilizationVector)
      ensures v == WindowOf(EventsIn(devices, d), win)
    {
      if d !in devices {
        EmptyWindow(win);
        return UtilizationVector(win.Duration(), 0, 0, 0, 0, 0, 0, 0, 0, 0, 0, 0, 0, 0, 0, 0, 0, 0, 0, 0);
      }
      v := ComputeWindow(devices[d].events, win);
    }

    method Gap(d: Id, win: Interval) returns (g: Windows.Gap)
      ensures g == GapOf(devices, d, win)
    {
      g := ComputeGap(devices, d, win);
    }

    method CanonicalDigest() returns (value: u64)
      ensures IsDigest(history, value)
    {
      value := Canonical.CanonicalDigest(history);
    }

    /** `order` is the iteration order of the device map. */
    method MergedTimeline(order: seq<Id>, win: Interval) returns (out: seq<Timeline.TimelineEvent>)
      requires Timeline.Enumerates(order, devices)
      ensures Sorting.Sorts(Timeline.ComesBefore, Timeline.Entries(devices, order, win), out)
    {
      out := Timeline.ComputeTimeline(devices, order, win);
    }

    method Workload(order: seq<Id>, wl: Id, win: Interval) returns (v: Timeline.WorkloadView)
      requires Timeline.Enumerates(order, devices)
      ensures v == Timeline.WorkloadOf(Timeline.WorkloadEvents(devices, order, wl), win)
    {
      v := Timeline.ComputeWorkload(devices, order, wl, win);
    }
  }

  lemma ClearedFields(s: State, t: State)
    requires t.limits == s.limits && t.epoch == s.epoch && t.generation == s.generation
    requires t.sources == map[] && t.devices == map[]
    requires t.deviceGens == map[] && t.workloadGens == map[] && t.evidenceGens == map[]
    requires t.history == [] && t.dedup == {} && t.dedupOrder == [] && t.counters == NO_COUNTS
    ensures t == Cleared(s)
  {
  }

  /** Once a replay has stopped, nothing later happens. */
  lemma {:induction false} ReplayStuck(s: State, obs: seq<Observation>, i: nat, n: nat)
    requires i <= n <= |obs| && (Replay(s, obs, i).status == Ok ==> i == n)
    ensures Replay(s, obs, n) == Replay(s, obs, i)
    decreases n
  {
    hide Ingest;
    if i < n {
      ReplayStuck(s, obs, i, n - 1);
    }
  }

  lemma EmptyWindow(win: Interval)
    ensures WindowOf([], win) ==
      UtilizationVector(win.Duration(), 0, 0, 0, 0, 0, 0, 0, 0, 0, 0, 0, 0, 0, 0, 0, 0, 0, 0, 0)
  {
    forall cats: Categories
      ensures Ticks([], cats, win) == {}
    {
    }
    hide Ticks;
  }
}
