/** Source authority and coordinator epochs over runs. */
module Authority {
  import opened Words
  import opened Intervals
  import opened Observations
  import opened Engine
  import opened Machine
  import opened Reachability
  import opened DedupWindow
  import opened Generations
  import opened Conservation
  import FileFormat
  import Interleaving

  /** The source is connected under exactly this generation and boot. */
  ghost predicate Holds(s: State, source: Id, generation: u64, boot: u64) {
    && source in s.sources
    && s.sources[source].generation == generation && s.sources[source].boot == boot
    && s.sources[source].connected
  }

  /** The calls that may change whose authority a source carries. */
  predicate Resets(op: Op, source: Id) {
    match op
    case RegisterOp(id, _, _, _) => id == source
    case DisconnectOp(id, _) => id == source
    case LoadOp(_) => true
    case _ => false
  }

  /** Source authority is decided before anything else about the observation. */
  lemma IngestAuthority(s: State, o: Observation)
    ensures var r := Ingest(s, false, o);
      && (r.status == Ok ==> Holds(r.state, o.source, o.sourceGeneration, o.workerBoot))
      && (forall source, generation, boot ::
            Holds(s, source, generation, boot) ==> Holds(r.state, source, generation, boot))
  {
    hide Authorize;
    hide GateGenerations;
    hide Commit;
    AuthorizeFrame(s, false, o);
    AuthorizeKeeps(s, o);
    var a := Authorize(KnowSource(s, o), false, o);
    GateFrame(a.state, o);
    CommitKeeps(GateGenerations(a.state, o).state, o);
  }

  lemma AuthorizeKeeps(s: State, o: Observation)
    ensures var a := Authorize(KnowSource(s, o), false, o);
      && (a.status == Ok ==> Holds(a.state, o.source, o.sourceGeneration, o.workerBoot))
      && (forall source, generation, boot ::
            Holds(s, source, generation, boot) ==> Holds(a.state, source, generation, boot))
  {
  }

  lemma CommitKeeps(s: State, o: Observation)
    requires o.source in s.sources
    ensures forall source, generation, boot ::
      Holds(s, source, generation, boot) ==> Holds(Commit(s, o).state, source, generation, boot)
  {
    hide Commit;
    hide Accumulate;
    hide WellFormed;
    Interleaving.CommitIsLocal(s, o);
  }

  lemma StepKeeps(s: State, op: Op, source: Id, generation: u64, boot: u64)
    requires Holds(s, source, generation, boot) && !Resets(op, source)
    ensures Holds(Step(s, op).state, source, generation, boot)
  {
    hide Ingest;
    if op.IngestOp? {
      IngestAuthority(s, op.o);
    }
  }

  lemma {:induction false} RunKeeps(s0: State, ops: seq<Op>, i: nat, j: nat, source: Id, generation: u64, boot: u64)
    requires i <= j <= |ops| && forall m :: i <= m < j ==> !Resets(ops[m], source)
    requires Holds(StateAt(s0, ops, i), source, generation, boot)
    ensures Holds(StateAt(s0, ops, j), source, generation, boot)
    decreases j
  {
    hide Step;
    hide Holds;
    if i < j {
      RunKeeps(s0, ops, i, j - 1, source, generation, boot);
      StepKeeps(StateAt(s0, ops, j - 1), ops[j - 1], source, generation, boot);
    }
  }

  /** An accepted observation's source holds its authority before the call, or was unknown or disconnected. */
  lemma AcceptedUnderAuthority(s: State, o: Observation)
    requires Ingest(s, false, o).status == Ok
    ensures o.source in s.sources && s.sources[o.source].connected ==>
      Holds(s, o.source, o.sourceGeneration, o.workerBoot)
  {
    hide GateGenerations;
    hide Commit;
  }

  /**
   Between two accepted observations of one source with different generation or boot there is
   always a disconnect, a registration or a load.
   */
  lemma AuthorityChangesOnlyByReset(s0: State, ops: seq<Op>, i: nat, j: nat)
    requires i < j < |ops| && AcceptedAt(s0, ops, i) && AcceptedAt(s0, ops, j)
    requires ops[i].o.source == ops[j].o.source
    requires ops[i].o.sourceGeneration != ops[j].o.sourceGeneration || ops[i].o.workerBoot != ops[j].o.workerBoot
    ensures exists m :: i < m < j && Resets(ops[m], ops[i].o.source)
  {
    hide Ingest;
    hide StateAt;
    var a, b := ops[i].o, ops[j].o;
    if forall m :: i < m < j ==> !Resets(ops[m], a.source) {
      AfterAccepted(s0, ops, i);
      RunKeeps(s0, ops, i + 1, j, a.source, a.sourceGeneration, a.workerBoot);
      AcceptedUnderAuthority(StateAt(s0, ops, j), b);
    }
  }

  lemma AfterAccepted(s0: State, ops: seq<Op>, i: nat)
    requires i < |ops| && AcceptedAt(s0, ops, i)
    ensures Holds(StateAt(s0, ops, i + 1), ops[i].o.source, ops[i].o.sourceGeneration, ops[i].o.workerBoot)
  {
    hide Ingest;
    IngestAuthority(StateAt(s0, ops, i), ops[i].o);
  }

  /** A connected source refuses every other generation or boot, however new. */
  lemma ConnectedSourceRefusesOthers(s: State, o: Observation)
    requires o.source in s.sources && s.sources[o.source].connected && o.coordinatorEpoch == s.epoch
    ensures Ingest(s, false, o).status == StaleAuthority
      <==> o.sourceGeneration != s.sources[o.source].generation || o.workerBoot != s.sources[o.source].boot
  {
    hide Commit;
    hide Gate;
    AuthorizeFrame(s, false, o);
    var a := Authorize(KnowSource(s, o), false, o);
    GateFrame(a.state, o);
    CommitFrame(GateGenerations(a.state, o).state, o);
  }

  // ----- the answer of one ingest -----

  /** The source is known under exactly this generation and boot, and disconnected. */
  ghost predicate Down(s: State, source: Id, generation: u64, boot: u64) {
    && source in s.sources
    && s.sources[source].generation == generation && s.sources[source].boot == boot
    && !s.sources[source].connected
  }

  /** Refused for whose it is: not the source's authority, or a source that is disconnected. */
  predicate Unauthorized(status: Status) {
    status == StaleAuthority || status == SourceDisconnected
  }

  /** Some valid identity of the observation has been seen at a newer generation. */
  ghost predicate Behind(s: State, o: Observation) {
    || (o.device != 0 && o.device in s.deviceGens && o.deviceGeneration < s.deviceGens[o.device])
    || (o.workload != 0 && o.workload in s.workloadGens && o.workloadGeneration < s.workloadGens[o.workload])
    || (o.evidence != 0 && o.evidence in s.evidenceGens && o.evidenceGeneration < s.evidenceGens[o.evidence])
  }

  /** What a live ingest answers, and in which order it looks. */
  lemma IngestAnswers(s: State, o: Observation)
    ensures Ingest(s, false, o).status ==
      if o.coordinatorEpoch != s.epoch then StaleAuthority
      else if Down(s, o.source, o.sourceGeneration, o.workerBoot) then SourceDisconnected
      else if o.source in s.sources && s.sources[o.source].connected
        && !Holds(s, o.source, o.sourceGeneration, o.workerBoot) then StaleAuthority
      else if Behind(s, o) then StaleEvidence
      else if o.id in s.dedup then DuplicateObservation
      else if WellFormed(o) then Ok else InvalidInput
  {
    hide Authorize;
    hide GateGenerations;
    hide Commit;
    hide WellFormed;
    hide Gate;
    Interleaving.AuthorizeIsLocal(s, o);
    AuthorizeFrame(s, false, o);
    var a := Authorize(KnowSource(s, o), false, o);
    Interleaving.GatesAreLocal(a.state, o);
    GateFrame(a.state, o);
    GateRaises(s.deviceGens, o.device, o.deviceGeneration);
    GateRaises(s.workloadGens, o.workload, o.workloadGeneration);
    GateRaises(s.evidenceGens, o.evidence, o.evidenceGeneration);
    Interleaving.CommitIsLocal(GateGenerations(a.state, o).state, o);
  }

  /**
   What a live ingest does to the sources: refused ones change nothing; one that passes the authority
   check leaves its source connected under its authority, and no other source is touched.
   */
  lemma IngestSources(s: State, o: Observation)
    ensures var r := Ingest(s, false, o);
      && (Unauthorized(r.status) ==> r.state.sources == s.sources)
      && (!Unauthorized(r.status) ==> Holds(r.state, o.source, o.sourceGeneration, o.workerBoot))
      && (forall id :: id != o.source ==>
            (id in r.state.sources <==> id in s.sources) && (id in s.sources ==> r.state.sources[id] == s.sources[id]))
  {
    hide Authorize;
    hide GateGenerations;
    hide Commit;
    hide WellFormed;
    Interleaving.AuthorizeIsLocal(s, o);
    AuthorizeFrame(s, false, o);
    var a := Authorize(KnowSource(s, o), false, o);
    GateFrame(a.state, o);
    Interleaving.CommitIsLocal(GateGenerations(a.state, o).state, o);
    CommitFrame(GateGenerations(a.state, o).state, o);
    if Unauthorized(a.status) && o.source in s.sources {
      assert s.sources[o.source := s.sources[o.source]] == s.sources;
    }
  }

  // ----- lifecycle calls over runs -----

  /** What register, connect and disconnect do to the sources; unknown ones cannot be connected or disconnected. */
  lemma LifecycleMoves(s: State, op: Op)
    requires op.RegisterOp? || op.ConnectOp? || op.DisconnectOp?
    ensures var t := Step(s, op).state;
      && (op.RegisterOp? ==>
            op.id in t.sources && t.sources[op.id] == SourceState(op.generation, op.boot, true, op.last))
      && (!op.RegisterOp? && op.id in s.sources ==>
            && op.id in t.sources
            && t.sources[op.id].generation == s.sources[op.id].generation
            && t.sources[op.id].boot == s.sources[op.id].boot
            && t.sources[op.id].connected == op.ConnectOp?
            && t.sources[op.id].lastObservation == op.at)
      && (!op.RegisterOp? && op.id !in s.sources ==> t == s && Step(s, op).status == InvalidInput)
      && (op.RegisterOp? || op.id in s.sources ==> Step(s, op).status == Ok)
      && (forall id :: id != op.id ==>
            (id in t.sources <==> id in s.sources) && (id in s.sources ==> t.sources[id] == s.sources[id]))
  {
    hide WrapAdd;
  }

  /** The calls that bring a disconnected source back. */
  ghost predicate Revives(s: State, op: Op, source: Id) {
    match op
    case IngestOp(o) =>
      && o.source == source && o.coordinatorEpoch == s.epoch
      && !Down(s, source, o.sourceGeneration, o.workerBoot)
    case RegisterOp(id, _, _, _) => id == source
    case ConnectOp(id, _) => id == source
    case LoadOp(_) => true
    case _ => false
  }

  lemma StepStaysDown(s: State, op: Op, source: Id, generation: u64, boot: u64)
    requires Down(s, source, generation, boot) && !Revives(s, op, source)
    ensures Down(Step(s, op).state, source, generation, boot)
  {
    hide Ingest;
    match op {
      case IngestOp(o) =>
        IngestAnswers(s, o);
        IngestSources(s, o);
      case AdvanceEpochOp =>
      case _ => LifecycleMoves(s, op);
    }
  }

  lemma {:induction false} RunStaysDown(s0: State, ops: seq<Op>, i: nat, j: nat, source: Id, generation: u64,
                                        boot: u64)
    requires i <= j <= |ops| && forall m :: i <= m < j ==> !Revives(StateAt(s0, ops, m), ops[m], source)
    requires Down(StateAt(s0, ops, i), source, generation, boot)
    ensures Down(StateAt(s0, ops, j), source, generation, boot)
    decreases j
  {
    hide Step;
    hide Down;
    hide Revives;
    if i < j {
      RunStaysDown(s0, ops, i, j - 1, source, generation, boot);
      StepStaysDown(StateAt(s0, ops, j - 1), ops[j - 1], source, generation, boot);
    }
  }

  /**
   After the disconnect of a known source, until a call brings it back, an observation of its old
   authority at the current epoch is answered as disconnected; the first of another generation or
   boot passes the authority check and takes the source over.
   */
  lemma DisconnectedUntilRevived(s0: State, ops: seq<Op>, i: nat, j: nat)
    requires i < j < |ops| && ops[i].DisconnectOp? && ops[i].id in StateAt(s0, ops, i).sources
    requires forall m :: i < m < j ==> !Revives(StateAt(s0, ops, m), ops[m], ops[i].id)
    requires ops[j].IngestOp? && ops[j].o.source == ops[i].id
    requires ops[j].o.coordinatorEpoch == StateAt(s0, ops, j).epoch
    ensures var src, o := StateAt(s0, ops, i).sources[ops[i].id], ops[j].o;
      if o.sourceGeneration == src.generation && o.workerBoot == src.boot
      then StatusAt(s0, ops, j) == SourceDisconnected
      else
        && !Unauthorized(StatusAt(s0, ops, j))
        && Holds(StateAt(s0, ops, j + 1), o.source, o.sourceGeneration, o.workerBoot)
  {
    hide Ingest;
    hide StateAt;
    hide Step;
    hide Revives;
    var src := StateAt(s0, ops, i).sources[ops[i].id];
    DisconnectedIsDown(s0, ops, i);
    RunStaysDown(s0, ops, i + 1, j, ops[i].id, src.generation, src.boot);
    IngestAnswers(StateAt(s0, ops, j), ops[j].o);
    IngestSources(StateAt(s0, ops, j), ops[j].o);
    StateAfterIngest(s0, ops, j);
  }

  lemma DisconnectedIsDown(s0: State, ops: seq<Op>, i: nat)
    requires i < |ops| && ops[i].DisconnectOp? && ops[i].id in StateAt(s0, ops, i).sources
    ensures var src := StateAt(s0, ops, i).sources[ops[i].id];
      Down(StateAt(s0, ops, i + 1), ops[i].id, src.generation, src.boot)
  {
    LifecycleMoves(StateAt(s0, ops, i), ops[i]);
    assert StateAt(s0, ops, i + 1) == Step(StateAt(s0, ops, i), ops[i]).state;
    hide Step;
    hide StateAt;
  }

  lemma StateAfterIngest(s0: State, ops: seq<Op>, j: nat)
    requires j < |ops| && ops[j].IngestOp?
    ensures StateAt(s0, ops, j + 1) == Ingest(StateAt(s0, ops, j), false, ops[j].o).state
    ensures StatusAt(s0, ops, j) == Ingest(StateAt(s0, ops, j), false, ops[j].o).status
  {
    hide Ingest;
  }

  /** The call connects the source under this authority: a registration, or the connect of a known source. */
  ghost predicate Establishes(s: State, op: Op, source: Id, generation: u64, boot: u64) {
    || (op.RegisterOp? && op.id == source && op.generation == generation && op.boot == boot)
    || (op.ConnectOp? && op.id == source && source in s.sources
        && s.sources[source].generation == generation && s.sources[source].boot == boot)
  }

  /**
   After a registration or a connect, until a disconnect, a registration or a load, an observation at
   the current epoch passes the authority check if and only if it carries that authority, and any
   other is answered as stale.
   */
  lemma ConnectedUntilReset(s0: State, ops: seq<Op>, i: nat, j: nat, generation: u64, boot: u64)
    requires i < j < |ops| && (ops[i].RegisterOp? || ops[i].ConnectOp?)
    requires Establishes(StateAt(s0, ops, i), ops[i], ops[i].id, generation, boot)
    requires forall m :: i < m < j ==> !Resets(ops[m], ops[i].id)
    requires ops[j].IngestOp? && ops[j].o.source == ops[i].id
    requires ops[j].o.coordinatorEpoch == StateAt(s0, ops, j).epoch
    ensures var o := ops[j].o;
      if o.sourceGeneration == generation && o.workerBoot == boot then !Unauthorized(StatusAt(s0, ops, j))
      else StatusAt(s0, ops, j) == StaleAuthority
  {
    hide Ingest;
    hide StateAt;
    hide Step;
    hide Establishes;
    hide Resets;
    EstablishedHolds(s0, ops, i, generation, boot);
    RunKeeps(s0, ops, i + 1, j, ops[i].id, generation, boot);
    IngestAnswers(StateAt(s0, ops, j), ops[j].o);
    StateAfterIngest(s0, ops, j);
  }

  lemma EstablishedHolds(s0: State, ops: seq<Op>, i: nat, generation: u64, boot: u64)
    requires i < |ops| && (ops[i].RegisterOp? || ops[i].ConnectOp?)
    requires Establishes(StateAt(s0, ops, i), ops[i], ops[i].id, generation, boot)
    ensures Holds(StateAt(s0, ops, i + 1), ops[i].id, generation, boot)
  {
    LifecycleMoves(StateAt(s0, ops, i), ops[i]);
    assert StateAt(s0, ops, i + 1) == Step(StateAt(s0, ops, i), ops[i]).state;
    hide Step;
    hide StateAt;
  }

  // ----- sources after a load -----

  /** Of the first n records, m is the last of this source. */
  ghost predicate LastOf(obs: seq<Observation>, n: nat, source: Id, m: int)
    requires n <= |obs|
  {
    0 <= m < n && obs[m].source == source && forall k :: m < k < n ==> obs[k].source != source
  }

  /** Exactly the sources of the first n records are known, each under the authority of its last record. */
  ghost predicate SourcesShow(sources: map<Id, SourceState>, obs: seq<Observation>, n: nat)
    requires n <= |obs|
  {
    && (forall id :: id in sources <==> exists m :: LastOf(obs, n, id, m))
    && (forall id, m :: LastOf(obs, n, id, m) ==>
          sources[id].generation == obs[m].sourceGeneration && sources[id].boot == obs[m].workerBoot)
  }

  /** A replayed record is adopted as the authority of its source, whatever becomes of the record. */
  lemma ReplayAdopts(s: State, o: Observation)
    ensures var t := Ingest(s, true, o).state;
      && Holds(t, o.source, o.sourceGeneration, o.workerBoot)
      && (var before := if o.source in s.sources then s.sources[o.source].lastObservation else 0;
          t.sources[o.source].lastObservation
            == if Ingest(s, true, o).status == Ok then Max(before, o.begin) else before)
      && (forall id :: id != o.source ==>
            (id in t.sources <==> id in s.sources) && (id in s.sources ==> t.sources[id] == s.sources[id]))
  {
    hide GateGenerations;
    hide Commit;
    AuthorizeFrame(s, true, o);
    var a := Authorize(KnowSource(s, o), true, o);
    GateFrame(a.state, o);
    Interleaving.CommitIsLocal(GateGenerations(a.state, o).state, o);
  }

  lemma NextShows(sources: map<Id, SourceState>, next: map<Id, SourceState>, obs: seq<Observation>, n: nat)
    requires n < |obs| && SourcesShow(sources, obs, n)
    requires obs[n].source in next && next[obs[n].source].generation == obs[n].sourceGeneration
    requires next[obs[n].source].boot == obs[n].workerBoot
    requires forall id :: id != obs[n].source ==>
      (id in next <==> id in sources) && (id in sources ==> next[id] == sources[id])
    ensures SourcesShow(next, obs, n + 1)
  {
    var k := n + 1;
    forall id, m
      ensures LastOf(obs, k, id, m) <==> if id == obs[n].source then m == n else LastOf(obs, n, id, m)
    {
    }
    hide LastOf;
    assert LastOf(obs, k, obs[n].source, n);
    forall id | id in sources && id != obs[n].source
      ensures exists m :: LastOf(obs, k, id, m)
    {
      var m :| LastOf(obs, n, id, m);
      assert LastOf(obs, k, id, m);
    }
  }

  lemma {:induction false} ReplaySources(s: State, obs: seq<Observation>, n: nat)
    requires n <= |obs|
    ensures SourcesShow(Replay(Cleared(s), obs, n).state.sources, obs, Attempts(Cleared(s), obs, n))
  {
    hide Ingest;
    hide SourcesShow;
    if n == 0 {
      NothingShown(s, obs);
    } else {
      ReplaySources(s, obs, n - 1);
      var r := Replay(Cleared(s), obs, n - 1);
      if r.status == Ok {
        ReplayAdopts(r.state, obs[n - 1]);
        NextShows(r.state.sources, Ingest(r.state, true, obs[n - 1]).state.sources, obs, n - 1);
      }
    }
  }

  lemma NothingShown(s: State, obs: seq<Observation>)
    ensures SourcesShow(Cleared(s).sources, obs, 0)
  {
  }

  /**
   After a load that parses, a source is known if and only if a record the replay worked on names it;
   it carries the authority of the last such record, and is disconnected.
   */
  lemma LoadedAuthorities(s: State, file: seq<u8>)
    requires FileFormat.Parse(file).Some?
    ensures var obs, t := FileFormat.Parse(file).value, Load(s, file).state;
      && SourcesShow(t.sources, obs, Attempts(Cleared(s), obs, |obs|))
      && forall id :: id in t.sources ==> !t.sources[id].connected
  {
    hide FileFormat.Parse;
    hide Replay;
    hide LastOf;
    var obs := FileFormat.Parse(file).value;
    ReplaySources(s, obs, |obs|);
  }

  /** A file that does not parse is answered as corrupt and changes nothing; one that parses never is. */
  lemma CorruptFileChangesNothing(s: State, file: seq<u8>)
    ensures Load(s, file).status == PersistenceCorrupt <==> FileFormat.Parse(file).None?
    ensures FileFormat.Parse(file).None? ==> Load(s, file).state == s
  {
    hide FileFormat.Parse;
    if FileFormat.Parse(file).Some? {
      ReplayIsNotCorrupt(s, FileFormat.Parse(file).value, |FileFormat.Parse(file).value|);
    }
  }

  lemma {:induction false} ReplayIsNotCorrupt(s: State, obs: seq<Observation>, n: nat)
    requires n <= |obs|
    ensures Replay(Cleared(s), obs, n).status != PersistenceCorrupt
  {
    hide Ingest;
    if n > 0 {
      ReplayIsNotCorrupt(s, obs, n - 1);
      IngestFrame(Replay(Cleared(s), obs, n - 1).state, true, obs[n - 1]);
    }
  }

  /**
   After a load every restored source needs a fresh authority: the generation and boot of the last
   record of the source the replay worked on is refused as disconnected, and any other passes the
   authority check and takes the source over.
   */
  lemma LoadedSourcesNeedRevalidation(s: State, file: seq<u8>, o: Observation, m: nat)
    requires FileFormat.Parse(file).Some? && o.coordinatorEpoch == s.epoch
    requires var obs := FileFormat.Parse(file).value;
      LastOf(obs, Attempts(Cleared(s), obs, |obs|), o.source, m)
    ensures var r, last := Load(s, file).state, FileFormat.Parse(file).value[m];
      var status := Ingest(r, false, o).status;
      if o.sourceGeneration == last.sourceGeneration && o.workerBoot == last.workerBoot
      then status == SourceDisconnected
      else !Unauthorized(status) && Holds(Ingest(r, false, o).state, o.source, o.sourceGeneration, o.workerBoot)
  {
    hide FileFormat.Parse;
    hide Replay;
    hide Ingest;
    hide LastOf;
    LoadedAuthorities(s, file);
    var obs, t := FileFormat.Parse(file).value, Load(s, file).state;
    ReplayKeepsLimits(Cleared(s), obs, |obs|);
    IngestAnswers(t, o);
    IngestSources(t, o);
  }

  // ----- epochs -----

  lemma {:induction false} EpochsRise(s0: State, ops: seq<Op>, i: nat, j: nat)
    requires i <= j <= |ops|
    requires forall m :: i <= m < j && ops[m].AdvanceEpochOp? ==> StateAt(s0, ops, m).epoch < U64_LIMIT - 1
    ensures StateAt(s0, ops, i).epoch <= StateAt(s0, ops, j).epoch
    decreases j
  {
    hide Step;
    if i < j {
      EpochsRise(s0, ops, i, j - 1);
      StepKeepsLimits(StateAt(s0, ops, j - 1), ops[j - 1]);
    }
  }

  /** As long as the epoch does not wrap, accepted observations carry non-decreasing coordinator epochs. */
  lemma AcceptedEpochsRise(s0: State, ops: seq<Op>, i: nat, j: nat)
    requires i <= j < |ops| && AcceptedAt(s0, ops, i) && AcceptedAt(s0, ops, j)
    requires forall m :: i <= m < j && ops[m].AdvanceEpochOp? ==> StateAt(s0, ops, m).epoch < U64_LIMIT - 1
    ensures ops[i].o.coordinatorEpoch <= ops[j].o.coordinatorEpoch
  {
    hide Ingest;
    hide StateAt;
    EpochsRise(s0, ops, i, j);
    IngestAccepts(StateAt(s0, ops, i), false, ops[i].o);
    IngestAccepts(StateAt(s0, ops, j), false, ops[j].o);
  }

  /** The epoch advances among the first n calls. */
  function AdvancesIn(ops: seq<Op>, n: nat): nat
    requires n <= |ops|
  {
    if n == 0 then 0 else AdvancesIn(ops, n - 1) + (if ops[n - 1].AdvanceEpochOp? then 1 else 0)
  }

  /** The running epoch counts the advances, modulo 2^64, and nothing else moves it; loads keep it. */
  lemma {:induction false} EpochCountsAdvances(limits: Limits, epoch: u64, generation: u64, ops: seq<Op>, i: nat)
    requires i <= |ops|
    ensures StateAt(Init(limits, epoch, generation), ops, i).epoch == (epoch + AdvancesIn(ops, i)) % U64_LIMIT
  {
    hide Step;
    if i > 0 {
      EpochCountsAdvances(limits, epoch, generation, ops, i - 1);
      StepKeepsLimits(StateAt(Init(limits, epoch, generation), ops, i - 1), ops[i - 1]);
      AnotherAdvance(epoch, AdvancesIn(ops, i - 1));
    }
  }

  lemma AnotherAdvance(epoch: u64, n: nat)
    ensures WrapAdd((epoch + n) % U64_LIMIT, 1) == (epoch + n + 1) % U64_LIMIT
  {
    var x := epoch + n;
    assert x + 1 == x % U64_LIMIT + 1 + x / U64_LIMIT * U64_LIMIT;
  }
}
