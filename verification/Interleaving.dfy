/** Streams with disjoint footprints do not see each other: every interleaving answers as if each ran alone. */
module Interleaving {
  import opened Words
  import opened Intervals
  import opened Observations
  import opened Engine
  import opened Machine
  import opened Reachability
  import opened Windows
  import opened EndToEnd

  /** The identities one stream may use. */
  datatype Footprint = Footprint(sources: set<Id>, devices: set<Id>, workloads: set<Id>, evidence: set<Id>)

  /** Calls are assigned to streams by their source; an epoch advance belongs to every stream. */
  predicate Mine(f: Footprint, op: Op) {
    match op
    case IngestOp(o) => o.source in f.sources
    case RegisterOp(id, _, _, _) => id in f.sources
    case ConnectOp(id, _) => id in f.sources
    case DisconnectOp(id, _) => id in f.sources
    case AdvanceEpochOp => true
    case LoadOp(_) => false
  }

  /** A valid identity is used by this stream if and only if it is in the footprint. */
  predicate Apart(f: Footprint, o: Observation) {
    var mine := o.source in f.sources;
    && (o.device != 0 ==> (o.device in f.devices <==> mine))
    && (o.workload != 0 ==> (o.workload in f.workloads <==> mine))
    && (o.evidence != 0 ==> (o.evidence in f.evidence <==> mine))
  }

  /** Epoch advances, and ingests and source lifecycle calls each inside or outside the footprint, never across. */
  ghost predicate Separated(f: Footprint, ops: seq<Op>) {
    forall i :: 0 <= i < |ops| ==>
      !ops[i].LoadOp? && (ops[i].IngestOp? ==> Apart(f, ops[i].o))
  }

  /** No observation id is used twice or remembered from before. */
  ghost predicate FreshIds(s0: State, ops: seq<Op>) {
    && (forall i :: 0 <= i < |ops| && ops[i].IngestOp? ==> ops[i].o.id !in s0.dedup)
    && (forall i, j :: 0 <= i < j < |ops| && ops[i].IngestOp? && ops[j].IngestOp? ==> ops[i].o.id != ops[j].o.id)
  }

  /** The calls of this stream among the first n, in order. */
  function Project(f: Footprint, ops: seq<Op>, n: nat): seq<Op>
    requires n <= |ops|
  {
    if n == 0 then [] else
    Project(f, ops, n - 1) + (if Mine(f, ops[n - 1]) then [ops[n - 1]] else [])
  }

  // ----- agreement on a footprint -----

  ghost predicate SameOn<V>(a: map<Id, V>, b: map<Id, V>, ids: set<Id>) {
    forall id :: id in ids ==> (id in a <==> id in b) && (id in a ==> a[id] == b[id])
  }

  ghost predicate Agree(f: Footprint, a: State, b: State) {
    && a.epoch == b.epoch
    && SameOn(a.sources, b.sources, f.sources)
    && SameOn(a.devices, b.devices, f.devices)
    && SameOn(a.deviceGens, b.deviceGens, f.devices)
    && SameOn(a.workloadGens, b.workloadGens, f.workloads)
    && SameOn(a.evidenceGens, b.evidenceGens, f.evidence)
  }

  lemma SameLookup<V>(a: map<Id, V>, b: map<Id, V>, ids: set<Id>, id: Id)
    requires SameOn(a, b, ids) && id in ids
    ensures (id in a <==> id in b) && (id in a ==> a[id] == b[id])
  {
  }

  lemma SameUpdate<V>(a: map<Id, V>, b: map<Id, V>, ids: set<Id>, id: Id, v: V)
    requires SameOn(a, b, ids)
    ensures SameOn(a[id := v], b[id := v], ids)
    ensures id !in ids ==> SameOn(a[id := v], b, ids)
  {
  }

  // ----- what each stage looks at -----

  function Lookup(sources: map<Id, SourceState>, id: Id): Option<SourceState> {
    if id in sources then Some(sources[id]) else None
  }

  /** The source after the authority check, given what was known of it. */
  function SourceAfter(known: Option<SourceState>, o: Observation): SourceState {
    if known.None? then SourceState(o.sourceGeneration, o.workerBoot, true, 0)
    else if !SameAuthority(known.value, o) && !known.value.connected
    then SourceState(o.sourceGeneration, o.workerBoot, true, o.begin)
    else known.value
  }

  function AuthorityStatus(known: Option<SourceState>, o: Observation): Status {
    if known.None? then Ok
    else if SameAuthority(known.value, o) then (if known.value.connected then Ok else SourceDisconnected)
    else if known.value.connected then StaleAuthority else Ok
  }

  /** The authority check reads and writes one source only. */
  lemma AuthorizeIsLocal(s: State, o: Observation)
    ensures var a := Authorize(KnowSource(s, o), false, o);
      && a.status == AuthorityStatus(Lookup(s.sources, o.source), o)
      && a.state.sources == s.sources[o.source := SourceAfter(Lookup(s.sources, o.source), o)]
  {
  }

  /** Each gate reads and writes its own map, and later ones only after earlier ones opened. */
  lemma GatesAreLocal(s: State, o: Observation)
    ensures var g := GateGenerations(s, o);
      var d, w, e := Gate(s.deviceGens, o.device, o.deviceGeneration),
        Gate(s.workloadGens, o.workload, o.workloadGeneration), Gate(s.evidenceGens, o.evidence, o.evidenceGeneration);
      && g.status == (if d.Some? && w.Some? && e.Some? then Ok else StaleEvidence)
      && g.state.deviceGens == (if d.Some? then d.value else s.deviceGens)
      && g.state.workloadGens == (if d.Some? && w.Some? then w.value else s.workloadGens)
      && g.state.evidenceGens == (if d.Some? && w.Some? && e.Some? then e.value else s.evidenceGens)
  {
    hide Gate;
  }

  /** Committing reads the dedup window, one source and the accumulators. */
  lemma CommitIsLocal(s: State, o: Observation)
    requires o.source in s.sources
    ensures var c := Commit(s, o);
      var src := s.sources[o.source];
      && c.status == (if o.id in s.dedup then DuplicateObservation else if WellFormed(o) then Ok else InvalidInput)
      && c.state.sources == (if c.status == Ok
           then s.sources[o.source := src.(lastObservation := Max(src.lastObservation, o.begin))] else s.sources)
      && c.state.devices == (if c.status == Ok then Accumulate(s.devices, o) else s.devices)
  {
    hide Accumulate;
    hide WellFormed;
  }

  lemma AuthorizeAgrees(f: Footprint, a: State, b: State, o: Observation)
    requires Agree(f, a, b) && o.source in f.sources
    ensures var x, y := Authorize(KnowSource(a, o), false, o), Authorize(KnowSource(b, o), false, o);
      x.status == y.status && Agree(f, x.state, y.state)
  {
    hide Authorize;
    hide SameOn;
    hide AuthorityStatus;
    hide SourceAfter;
    AuthorizeFrame(a, false, o);
    AuthorizeFrame(b, false, o);
    AuthorizeIsLocal(a, o);
    AuthorizeIsLocal(b, o);
    SameLookup(a.sources, b.sources, f.sources, o.source);
    SameUpdate(a.sources, b.sources, f.sources, o.source, SourceAfter(Lookup(a.sources, o.source), o));
  }

  lemma AuthorizeElsewhere(f: Footprint, a: State, b: State, o: Observation)
    requires Agree(f, a, b) && o.source !in f.sources
    ensures Agree(f, Authorize(KnowSource(a, o), false, o).state, b)
  {
    hide Authorize;
    hide SameOn;
    hide SourceAfter;
    AuthorizeFrame(a, false, o);
    AuthorizeIsLocal(a, o);
    SameUpdate(a.sources, b.sources, f.sources, o.source, SourceAfter(Lookup(a.sources, o.source), o));
  }

  lemma GateAgrees(m: map<Id, u64>, n: map<Id, u64>, ids: set<Id>, id: Id, generation: u64)
    requires SameOn(m, n, ids) && (id != 0 ==> id in ids)
    ensures var x, y := Gate(m, id, generation), Gate(n, id, generation);
      (x.None? <==> y.None?) && (x.Some? ==> SameOn(x.value, y.value, ids))
  {
  }

  lemma GateElsewhere(m: map<Id, u64>, n: map<Id, u64>, ids: set<Id>, id: Id, generation: u64)
    requires SameOn(m, n, ids) && (id != 0 ==> id !in ids)
    ensures var x := Gate(m, id, generation); x.Some? ==> SameOn(x.value, n, ids)
  {
  }

  lemma GatesAgree(f: Footprint, a: State, b: State, o: Observation)
    requires Agree(f, a, b) && Apart(f, o) && o.source in f.sources
    ensures var x, y := GateGenerations(a, o), GateGenerations(b, o);
      x.status == y.status && Agree(f, x.state, y.state)
  {
    hide Gate;
    hide GateGenerations;
    hide SameOn;
    GateFrame(a, o);
    GateFrame(b, o);
    GatesAreLocal(a, o);
    GatesAreLocal(b, o);
    GateAgrees(a.deviceGens, b.deviceGens, f.devices, o.device, o.deviceGeneration);
    GateAgrees(a.workloadGens, b.workloadGens, f.workloads, o.workload, o.workloadGeneration);
    GateAgrees(a.evidenceGens, b.evidenceGens, f.evidence, o.evidence, o.evidenceGeneration);
  }

  lemma GatesElsewhere(f: Footprint, a: State, b: State, o: Observation)
    requires Agree(f, a, b) && Apart(f, o) && o.source !in f.sources
    ensures Agree(f, GateGenerations(a, o).state, b)
  {
    hide Gate;
    hide GateGenerations;
    hide SameOn;
    GateFrame(a, o);
    GatesAreLocal(a, o);
    GateElsewhere(a.deviceGens, b.deviceGens, f.devices, o.device, o.deviceGeneration);
    GateElsewhere(a.workloadGens, b.workloadGens, f.workloads, o.workload, o.workloadGeneration);
    GateElsewhere(a.evidenceGens, b.evidenceGens, f.evidence, o.evidence, o.evidenceGeneration);
  }

  lemma AccumulateAgrees(a: map<Id, Device>, b: map<Id, Device>, ids: set<Id>, o: Observation)
    requires SameOn(a, b, ids)
    ensures o.device == 0 || o.device in ids ==> SameOn(Accumulate(a, o), Accumulate(b, o), ids)
    ensures o.device == 0 || o.device !in ids ==> SameOn(Accumulate(a, o), b, ids)
  {
    hide Book;
  }

  lemma CommitAgrees(f: Footprint, a: State, b: State, o: Observation)
    requires Agree(f, a, b) && Apart(f, o) && o.source in f.sources
    requires o.source in a.sources && o.source in b.sources
    requires o.id !in a.dedup && o.id !in b.dedup
    ensures var x, y := Commit(a, o), Commit(b, o);
      x.status == y.status && Agree(f, x.state, y.state)
  {
    hide Commit;
    hide Accumulate;
    hide WellFormed;
    hide SameOn;
    CommitFrame(a, o);
    CommitFrame(b, o);
    CommitIsLocal(a, o);
    CommitIsLocal(b, o);
    SameLookup(a.sources, b.sources, f.sources, o.source);
    var src := a.sources[o.source];
    SameUpdate(a.sources, b.sources, f.sources, o.source, src.(lastObservation := Max(src.lastObservation, o.begin)));
    AccumulateAgrees(a.devices, b.devices, f.devices, o);
  }

  lemma CommitElsewhere(f: Footprint, a: State, b: State, o: Observation)
    requires Agree(f, a, b) && Apart(f, o) && o.source !in f.sources && o.source in a.sources
    ensures Agree(f, Commit(a, o).state, b)
  {
    hide Commit;
    hide Accumulate;
    hide WellFormed;
    hide SameOn;
    CommitFrame(a, o);
    CommitIsLocal(a, o);
    var src := a.sources[o.source];
    SameUpdate(a.sources, b.sources, f.sources, o.source, src.(lastObservation := Max(src.lastObservation, o.begin)));
    AccumulateAgrees(a.devices, b.devices, f.devices, o);
  }

  // ----- one step -----

  lemma StaleAgrees(f: Footprint, a: State, b: State)
    requires Agree(f, a, b)
    ensures a.epoch == b.epoch && Agree(f, CountStale(a), CountStale(b)) && Agree(f, CountStale(a), b)
  {
    hide SameOn;
    hide WrapAdd;
  }

  lemma IngestAgrees(f: Footprint, a: State, b: State, o: Observation)
    requires Agree(f, a, b) && Apart(f, o) && o.source in f.sources
    requires o.id !in a.dedup && o.id !in b.dedup
    ensures var x, y := Ingest(a, false, o), Ingest(b, false, o);
      x.status == y.status && Agree(f, x.state, y.state)
  {
    hide Authorize;
    hide GateGenerations;
    hide Commit;
    hide CountStale;
    hide Agree;
    hide Apart;
    StaleAgrees(f, a, b);
    AuthorizeFrame(a, false, o);
    AuthorizeFrame(b, false, o);
    AuthorizeAgrees(f, a, b, o);
    var p, q := Authorize(KnowSource(a, o), false, o), Authorize(KnowSource(b, o), false, o);
    GatesAgree(f, p.state, q.state, o);
    GateFrame(p.state, o);
    GateFrame(q.state, o);
    CommitAgrees(f, GateGenerations(p.state, o).state, GateGenerations(q.state, o).state, o);
  }

  lemma IngestElsewhere(f: Footprint, a: State, b: State, o: Observation)
    requires Agree(f, a, b) && Apart(f, o) && o.source !in f.sources
    ensures Agree(f, Ingest(a, false, o).state, b)
  {
    hide Authorize;
    hide GateGenerations;
    hide Commit;
    hide CountStale;
    hide Agree;
    hide Apart;
    StaleAgrees(f, a, b);
    AuthorizeElsewhere(f, a, b, o);
    AuthorizeFrame(a, false, o);
    var p := Authorize(KnowSource(a, o), false, o);
    GatesElsewhere(f, p.state, b, o);
    GateFrame(p.state, o);
    CommitElsewhere(f, GateGenerations(p.state, o).state, b, o);
  }

  lemma LifecycleAgrees(f: Footprint, a: State, b: State, op: Op)
    requires Agree(f, a, b) && !op.IngestOp? && !op.LoadOp?
    ensures Mine(f, op) ==> Step(a, op).status == Step(b, op).status && Agree(f, Step(a, op).state, Step(b, op).state)
    ensures !Mine(f, op) ==> Agree(f, Step(a, op).state, b)
  {
    hide WrapAdd;
  }

  lemma StepAgrees(f: Footprint, a: State, b: State, op: Op)
    requires Agree(f, a, b) && !op.LoadOp?
    requires op.IngestOp? ==> Apart(f, op.o) && op.o.id !in a.dedup && op.o.id !in b.dedup
    ensures Mine(f, op) ==> Step(a, op).status == Step(b, op).status && Agree(f, Step(a, op).state, Step(b, op).state)
    ensures !Mine(f, op) ==> Agree(f, Step(a, op).state, b)
  {
    hide Ingest;
    hide Agree;
    hide Apart;
    if op.IngestOp? {
      if op.o.source in f.sources {
        IngestAgrees(f, a, b, op.o);
      } else {
        IngestElsewhere(f, a, b, op.o);
      }
    } else {
      LifecycleAgrees(f, a, b, op);
    }
  }

  // ----- whole runs -----

  /** Everything in the window was there at the start or used by one of the first n calls. */
  ghost predicate OnlySeen(s: State, s0: State, ops: seq<Op>, n: nat)
    requires n <= |ops|
  {
    forall id :: id in s.dedup ==> id in s0.dedup || exists m :: 0 <= m < n && ops[m].IngestOp? && ops[m].o.id == id
  }

  lemma StepSees(s: State, s0: State, ops: seq<Op>, n: nat)
    requires n < |ops| && OnlySeen(s, s0, ops, n) && !ops[n].LoadOp?
    ensures OnlySeen(Step(s, ops[n]).state, s0, ops, n + 1)
    ensures OnlySeen(s, s0, ops, n + 1)
  {
    hide Ingest;
    if ops[n].IngestOp? {
      IngestRemembers(s, false, ops[n].o);
      forall id | id in Step(s, ops[n]).state.dedup && id !in s.dedup
        ensures id == ops[n].o.id
      {
      }
    }
  }

  lemma {:induction false} SamePrefixSameState(s0: State, a: seq<Op>, b: seq<Op>, n: nat)
    requires n <= |a| && n <= |b| && forall i :: 0 <= i < n ==> a[i] == b[i]
    ensures StateAt(s0, a, n) == StateAt(s0, b, n)
  {
    hide Step;
    if n > 0 {
      SamePrefixSameState(s0, a, b, n - 1);
    }
  }

  /** The state the stream reaches on its own. */
  function Alone(f: Footprint, s0: State, ops: seq<Op>, n: nat): State
    requires n <= |ops|
  {
    StateAt(s0, Project(f, ops, n), |Project(f, ops, n)|)
  }

  lemma AloneStep(f: Footprint, s0: State, ops: seq<Op>, n: nat)
    requires n < |ops|
    ensures Alone(f, s0, ops, n + 1) ==
      if Mine(f, ops[n]) then Step(Alone(f, s0, ops, n), ops[n]).state else Alone(f, s0, ops, n)
    ensures Mine(f, ops[n]) ==>
      StatusAt(s0, Project(f, ops, n + 1), |Project(f, ops, n)|) == Step(Alone(f, s0, ops, n), ops[n]).status
  {
    hide Step;
    hide Mine;
    var p, q := Project(f, ops, n), Project(f, ops, n + 1);
    if Mine(f, ops[n]) {
      assert q == p + [ops[n]];
      SamePrefixSameState(s0, p, q, |p|);
    } else {
      assert q == p;
    }
  }

  lemma {:induction false} Simulates(f: Footprint, s0: State, ops: seq<Op>, n: nat)
    requires n <= |ops| && Separated(f, ops) && FreshIds(s0, ops)
    ensures Agree(f, StateAt(s0, ops, n), Alone(f, s0, ops, n))
    ensures OnlySeen(StateAt(s0, ops, n), s0, ops, n) && OnlySeen(Alone(f, s0, ops, n), s0, ops, n)
  {
    hide Step;
    hide Agree;
    hide Apart;
    hide Mine;
    hide OnlySeen;
    if n == 0 {
      assert Alone(f, s0, ops, 0) == s0;
      AgreesWithItself(f, s0, ops);
    } else {
      Simulates(f, s0, ops, n - 1);
      AloneStep(f, s0, ops, n - 1);
      var a, b := StateAt(s0, ops, n - 1), Alone(f, s0, ops, n - 1);
      StepSees(a, s0, ops, n - 1);
      StepSees(b, s0, ops, n - 1);
      NotSeenYet(a, s0, ops, n - 1);
      NotSeenYet(b, s0, ops, n - 1);
      StepAgrees(f, a, b, ops[n - 1]);
    }
  }

  lemma AgreesWithItself(f: Footprint, s0: State, ops: seq<Op>)
    ensures Agree(f, s0, s0) && OnlySeen(s0, s0, ops, 0)
  {
  }

  lemma NotSeenYet(s: State, s0: State, ops: seq<Op>, n: nat)
    requires n < |ops| && OnlySeen(s, s0, ops, n) && FreshIds(s0, ops)
    ensures ops[n].IngestOp? ==> ops[n].o.id !in s.dedup
  {
  }

  /** In an interleaved run every call of the stream is answered as in the run of the stream alone. */
  lemma StreamsAnswerAlone(f: Footprint, s0: State, ops: seq<Op>, n: nat)
    requires n < |ops| && Separated(f, ops) && FreshIds(s0, ops) && Mine(f, ops[n])
    ensures |Project(f, ops, n + 1)| == |Project(f, ops, n)| + 1
    ensures StatusAt(s0, ops, n) == StatusAt(s0, Project(f, ops, n + 1), |Project(f, ops, n)|)
  {
    hide Step;
    hide Agree;
    hide Apart;
    hide Mine;
    hide OnlySeen;
    Simulates(f, s0, ops, n);
    AloneStep(f, s0, ops, n);
    NotSeenYet(StateAt(s0, ops, n), s0, ops, n);
    NotSeenYet(Alone(f, s0, ops, n), s0, ops, n);
    StepAgrees(f, StateAt(s0, ops, n), Alone(f, s0, ops, n), ops[n]);
  }

  /** At every moment the devices of the stream, with all windows and gaps, are those of the stream alone. */
  lemma {:induction false} StreamsShowAlone(f: Footprint, s0: State, ops: seq<Op>, n: nat, d: Id, win: Interval)
    requires n <= |ops| && Separated(f, ops) && FreshIds(s0, ops) && d in f.devices
    ensures var x, y := StateAt(s0, ops, n).devices, Alone(f, s0, ops, n).devices;
      && (d in x <==> d in y) && (d in x ==> x[d] == y[d])
      && WindowOf(EventsIn(x, d), win) == WindowOf(EventsIn(y, d), win)
      && GapOf(x, d, win) == GapOf(y, d, win)
  {
    hide StateAt;
    hide Alone;
    hide WindowOf;
    hide Apart;
    hide OnlySeen;
    Simulates(f, s0, ops, n);
  }

  /** Two interleavings in which the stream makes the same calls show the same device windows and gaps. */
  lemma {:induction false} InterleavingsAgree(f: Footprint, s0: State, first: seq<Op>, second: seq<Op>, d: Id,
                                              win: Interval)
    requires Separated(f, first) && FreshIds(s0, first) && Separated(f, second) && FreshIds(s0, second)
    requires Project(f, first, |first|) == Project(f, second, |second|)
    requires d in f.devices
    ensures var x, y := StateAt(s0, first, |first|).devices, StateAt(s0, second, |second|).devices;
      && WindowOf(EventsIn(x, d), win) == WindowOf(EventsIn(y, d), win)
      && GapOf(x, d, win) == GapOf(y, d, win)
      && (d in x <==> d in y) && (d in x ==> x[d] == y[d])
  {
    hide StateAt;
    hide WindowOf;
    hide GapOf;
    hide Separated;
    hide FreshIds;
    hide Project;
    StreamsShowAlone(f, s0, first, |first|, d, win);
    StreamsShowAlone(f, s0, second, |second|, d, win);
  }
}
