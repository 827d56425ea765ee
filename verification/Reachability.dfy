/** What every reachable state satisfies, whatever calls were made: live traffic, lifecycle calls and loads. */
module Reachability {
  import opened Words
  import opened Observations
  import opened Engine
  import opened Machine
  import FileFormat

  // ----- what one ingest does and does not touch -----

  lemma AuthorizeFrame(s: State, historical: bool, o: Observation)
    ensures var a := Authorize(KnowSource(s, o), historical, o);
      && a.state == s.(sources := a.state.sources, counters := a.state.counters)
      && a.state.counters == s.counters.(rejected := a.state.counters.rejected, stale := a.state.counters.stale,
                                         reconnects := a.state.counters.reconnects)
      && o.source in a.state.sources
      && a.status in {Ok, StaleAuthority, SourceDisconnected}
  {
    hide WrapAdd;
  }

  lemma GateFrame(s: State, o: Observation)
    ensures var g := GateGenerations(s, o);
      && g.state == s.(deviceGens := g.state.deviceGens, workloadGens := g.state.workloadGens,
                       evidenceGens := g.state.evidenceGens, counters := g.state.counters)
      && g.state.counters == s.counters.(stale := g.state.counters.stale)
      && g.status in {Ok, StaleEvidence}
  {
    hide WrapAdd;
    hide Gate;
  }

  lemma CommitFrame(s: State, o: Observation)
    requires o.source in s.sources
    ensures var c := Commit(s, o);
      && c.status in {Ok, DuplicateObservation, InvalidInput}
      && c.state == s.(sources := c.state.sources, devices := c.state.devices, history := c.state.history,
                       dedup := c.state.dedup, dedupOrder := c.state.dedupOrder, counters := c.state.counters)
      && (c.status != Ok ==>
            && c.state.sources == s.sources && c.state.devices == s.devices && c.state.history == s.history
            && c.state.counters == s.counters.(rejected := c.state.counters.rejected,
                                               duplicates := c.state.counters.duplicates))
  {
    hide WrapAdd;
    hide Accumulate;
    hide WellFormed;
  }

  /**
   Rejected or not, an ingest leaves limits, epoch and generation alone; only acceptance touches
   devices and history.
   */
  lemma IngestFrame(s: State, historical: bool, o: Observation)
    ensures var r := Ingest(s, historical, o);
      && r.state.limits == s.limits && r.state.epoch == s.epoch && r.state.generation == s.generation
      && r.status != PersistenceCorrupt
      && (r.status != Ok ==>
            && r.state.devices == s.devices && r.state.history == s.history
            && r.state.counters.accepted == s.counters.accepted && r.state.counters.dropped == s.counters.dropped)
  {
    hide WrapAdd;
    hide Authorize;
    hide GateGenerations;
    hide Commit;
    AuthorizeFrame(s, historical, o);
    var a := Authorize(KnowSource(s, o), historical, o);
    GateFrame(a.state, o);
    var g := GateGenerations(a.state, o);
    CommitFrame(g.state, o);
  }

  /** The state an ingest hands to the duplicate check, when it gets that far. */
  function Admitted(s: State, historical: bool, o: Observation): State {
    GateGenerations(Authorize(KnowSource(s, o), historical, o).state, o).state
  }

  lemma IngestCommits(s: State, historical: bool, o: Observation)
    ensures var r, g := Ingest(s, historical, o), Admitted(s, historical, o);
      && o.source in g.sources
      && g == s.(sources := g.sources, deviceGens := g.deviceGens, workloadGens := g.workloadGens,
                 evidenceGens := g.evidenceGens, counters := g.counters)
      && g.counters.accepted == s.counters.accepted && g.counters.dropped == s.counters.dropped
      && (r.status in {Ok, InvalidInput, DuplicateObservation} ==>
            r == Commit(g, o) && (historical || o.coordinatorEpoch == s.epoch))
      && (r.status !in {Ok, InvalidInput, DuplicateObservation} ==>
            r.state.dedup == s.dedup && r.state.dedupOrder == s.dedupOrder)
  {
    hide WrapAdd;
    hide Authorize;
    hide GateGenerations;
    hide Commit;
    AuthorizeFrame(s, historical, o);
    var a := Authorize(KnowSource(s, o), historical, o);
    GateFrame(a.state, o);
    CommitFrame(GateGenerations(a.state, o).state, o);
  }

  /** Acceptance means: current epoch unless replaying, well-formed, not in the dedup window. */
  lemma IngestAccepts(s: State, historical: bool, o: Observation)
    requires Ingest(s, historical, o).status == Ok
    ensures historical || o.coordinatorEpoch == s.epoch
    ensures WellFormed(o) && o.id !in s.dedup
    ensures var t := Ingest(s, historical, o).state;
      && t.devices == Accumulate(s.devices, o)
      && t.history == (if |s.history| + 1 > s.limits.maxObservations then (s.history + [o])[1..] else s.history + [o])
      && t.counters.accepted == WrapAdd(s.counters.accepted, 1)
      && t.counters.dropped ==
           (if |s.history| + 1 > s.limits.maxObservations then WrapAdd(s.counters.dropped, 1) else s.counters.dropped)
  {
    hide Ingest;
    hide Admitted;
    hide Accumulate;
    hide WellFormed;
    IngestCommits(s, historical, o);
  }

  /** The id is remembered exactly by accepted and by malformed observations. */
  lemma IngestRemembers(s: State, historical: bool, o: Observation)
    ensures var r := Ingest(s, historical, o);
      var remembers := r.status == Ok || r.status == InvalidInput;
      && (remembers ==> o.id !in s.dedup)
      && r.state.dedup == (if remembers then Remember(s, o.id).dedup else s.dedup)
      && r.state.dedupOrder == (if remembers then Remember(s, o.id).dedupOrder else s.dedupOrder)
      && (r.status == DuplicateObservation ==> o.id in s.dedup)
  {
    hide Ingest;
    hide Commit;
    hide Admitted;
    hide Remember;
    IngestCommits(s, historical, o);
    CommitRemembers(Admitted(s, historical, o), o);
    SameRemembered(s, Admitted(s, historical, o), o.id);
  }

  lemma CommitRemembers(s: State, o: Observation)
    requires o.source in s.sources
    ensures var r := Commit(s, o);
      var remembers := r.status == Ok || r.status == InvalidInput;
      && (remembers <==> o.id !in s.dedup)
      && r.state.dedup == (if remembers then Remember(s, o.id).dedup else s.dedup)
      && r.state.dedupOrder == (if remembers then Remember(s, o.id).dedupOrder else s.dedupOrder)
  {
    hide Accumulate;
    hide WellFormed;
    hide WrapAdd;
  }

  lemma SameRemembered(s: State, t: State, id: Id)
    requires s.limits == t.limits && s.dedup == t.dedup && s.dedupOrder == t.dedupOrder
    ensures Remember(s, id).dedup == Remember(t, id).dedup && Remember(s, id).dedupOrder == Remember(t, id).dedupOrder
  {
  }

  // ----- the accumulators are a fold over the accepted log -----

  /** The accumulators after the first n observations of a log. */
  function DevicesOf(log: seq<Observation>, n: nat): map<Id, Device>
    requires n <= |log|
  {
    if n == 0 then map[] else Accumulate(DevicesOf(log, n - 1), log[n - 1])
  }

  lemma {:induction false} DevicesOfPrefix(a: seq<Observation>, b: seq<Observation>, n: nat)
    requires n <= |a| && n <= |b| && a[..n] == b[..n]
    ensures DevicesOf(a, n) == DevicesOf(b, n)
  {
    hide Accumulate;
    if n > 0 {
      assert a[..n - 1] == a[..n][..n - 1] == b[..n][..n - 1] == b[..n - 1];
      assert a[n - 1] == a[..n][n - 1] == b[..n][n - 1] == b[n - 1];
      DevicesOfPrefix(a, b, n - 1);
    }
  }

  /** A counter that wraps modulo 2^64 has counted to n. */
  ghost predicate Counts(c: u64, n: nat) {
    c == n % U64_LIMIT
  }

  /** The history is the longest suffix of the log within the bound. */
  ghost predicate Keeps(history: seq<Observation>, log: seq<Observation>, bound: nat)
    ensures Keeps(history, log, bound) ==> |history| <= |log|
  {
    && |history| <= |log| && history == log[|log| - |history|..]
    && |history| <= bound
    && (|history| < |log| ==> |history| == bound)
  }

  /** The state is what the accepted log says: accumulators, bounded history, counters. */
  ghost predicate Faithful(s: State, log: seq<Observation>) {
    && s.devices == DevicesOf(log, |log|)
    && Keeps(s.history, log, s.limits.maxObservations)
    && Counts(s.counters.accepted, |log|)
    && Counts(s.counters.dropped, |log| - |s.history|)
    && (forall i :: 0 <= i < |log| ==> WellFormed(log[i]))
  }

  lemma WrapCounts(n: nat, c: u64)
    requires Counts(c, n)
    ensures Counts(WrapAdd(c, 1), n + 1)
  {
  }

  lemma IngestFaithful(s: State, historical: bool, o: Observation, log: seq<Observation>)
    requires Faithful(s, log)
    ensures var r := Ingest(s, historical, o); Faithful(r.state, if r.status == Ok then log + [o] else log)
  {
    hide Ingest;
    hide Accumulate;
    hide WellFormed;
    hide WrapAdd;
    hide Faithful;
    IngestFrame(s, historical, o);
    var r := Ingest(s, historical, o);
    if r.status == Ok {
      IngestAccepts(s, historical, o);
      AcceptedFaithful(s, r.state, o, log);
    } else {
      SameFaithful(s, r.state, log);
    }
  }

  lemma AcceptedFaithful(s: State, t: State, o: Observation, log: seq<Observation>)
    requires Faithful(s, log) && WellFormed(o) && t.limits == s.limits
    requires var full := |s.history| + 1 > s.limits.maxObservations;
      && t.devices == Accumulate(s.devices, o)
      && t.history == (if full then (s.history + [o])[1..] else s.history + [o])
      && t.counters.accepted == WrapAdd(s.counters.accepted, 1)
      && t.counters.dropped == (if full then WrapAdd(s.counters.dropped, 1) else s.counters.dropped)
    ensures Faithful(t, log + [o])
  {
    hide Accumulate;
    hide WellFormed;
    hide DevicesOf;
    hide WrapAdd;
    hide Counts;
    hide Keeps;
    WrapCounts(|log|, s.counters.accepted);
    WrapCounts(|log| - |s.history|, s.counters.dropped);
    HistorySlides(s.history, log, o, s.limits.maxObservations);
    AnotherAccumulated(log, o);
  }

  /** A bounded suffix of the log slides along as the log grows. */
  lemma HistorySlides(history: seq<Observation>, log: seq<Observation>, o: Observation, bound: nat)
    requires Keeps(history, log, bound)
    ensures var full := |history| + 1 > bound;
      var next := if full then (history + [o])[1..] else history + [o];
      Keeps(next, log + [o], bound) && |next| == (if full then |history| else |history| + 1)
  {
    assert history + [o] == (log + [o])[|log| - |history|..];
  }

  lemma AnotherAccumulated(log: seq<Observation>, o: Observation)
    ensures DevicesOf(log + [o], |log| + 1) == Accumulate(DevicesOf(log, |log|), o)
  {
    hide Accumulate;
    assert (log + [o])[..|log|] == log == log[..|log|];
    DevicesOfPrefix(log + [o], log, |log|);
  }

  lemma {:induction false} ReplayFaithful(s: State, obs: seq<Observation>, n: nat)
    requires n <= |obs| && Faithful(s, [])
    ensures Faithful(Replay(s, obs, n).state, obs[..ReplayedCount(s, obs, n)])
  {
    hide Ingest;
    hide Faithful;
    if n > 0 {
      ReplayFaithful(s, obs, n - 1);
      var r := Replay(s, obs, n - 1);
      if r.status == Ok {
        IngestFaithful(r.state, true, obs[n - 1], obs[..n - 1]);
        assert obs[..n] == obs[..n - 1] + [obs[n - 1]];
      }
    } else {
      assert obs[..0] == [];
    }
  }

  /** In every reachable state the accumulators are exactly the fold of the accepted log. */
  lemma {:induction false} RunFaithful(limits: Limits, epoch: u64, generation: u64, ops: seq<Op>, i: nat)
    requires i <= |ops|
    ensures var s0 := Init(limits, epoch, generation); Faithful(StateAt(s0, ops, i), LogAt(s0, ops, i))
  {
    hide Step;
    hide LogAfter;
    hide Faithful;
    var s0 := Init(limits, epoch, generation);
    NothingFaithful(limits, epoch, generation);
    if i > 0 {
      RunFaithful(limits, epoch, generation, ops, i - 1);
      StepFaithful(StateAt(s0, ops, i - 1), ops[i - 1], LogAt(s0, ops, i - 1));
    }
  }

  lemma NothingFaithful(limits: Limits, epoch: u64, generation: u64)
    ensures Faithful(Init(limits, epoch, generation), [])
  {
  }

  /** Faithfulness is about accumulators, history, counters and limits only. */
  lemma SameFaithful(s: State, t: State, log: seq<Observation>)
    requires Faithful(s, log) && t.devices == s.devices && t.history == s.history && t.limits == s.limits
    requires t.counters.accepted == s.counters.accepted && t.counters.dropped == s.counters.dropped
    ensures Faithful(t, log)
  {
    hide WellFormed;
    hide DevicesOf;
  }

  lemma StepFaithful(s: State, op: Op, log: seq<Observation>)
    requires Faithful(s, log)
    ensures Faithful(Step(s, op).state, LogAfter(s, log, op))
  {
    hide Ingest;
    hide FileFormat.Parse;
    hide Faithful;
    hide WrapAdd;
    match op {
      case IngestOp(o) => IngestFaithful(s, false, o, log);
      case LoadOp(file) =>
        var parsed := FileFormat.Parse(file);
        if parsed.Some? {
          NothingFaithful(s.limits, s.epoch, s.generation);
          ReplayFaithful(Cleared(s), parsed.value, |parsed.value|);
          var t := Replay(Cleared(s), parsed.value, |parsed.value|).state;
          SameFaithful(t, DisconnectAll(t), LogAfter(s, log, op));
        }
      case _ => SameFaithful(s, Step(s, op).state, log);
    }
  }
}
