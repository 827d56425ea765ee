/** Saving and loading commute with meaning. */
module Persistence {
  import opened Words
  import opened Observations
  import opened Engine
  import opened Machine
  import opened Reachability
  import opened Generations
  import opened DedupWindow
  import opened Intervals
  import opened LogReading
  import opened Windows
  import opened WindowTheorems
  import opened EndToEnd
  import FileFormat
  import FileTheorems
  import opened Canonical

  function Ids(obs: seq<Observation>): (ids: seq<Id>)
    ensures |ids| == |obs| && forall i :: 0 <= i < |obs| ==> ids[i] == obs[i].id
  {
    seq(|obs|, i requires 0 <= i < |obs| => obs[i].id)
  }

  /** No id repeats within m positions. */
  ghost predicate Spaced(obs: seq<Observation>, m: nat) {
    forall i, j :: 0 <= i < j < |obs| && obs[i].id == obs[j].id ==> j - i > m
  }

  /** What a history of a reachable state satisfies: well-formed, and no generation goes back. */
  ghost predicate Replayable(obs: seq<Observation>) {
    && (forall i :: 0 <= i < |obs| ==> WellFormed(obs[i]))
    && (forall k: Domain :: Ordered(obs, k))
  }

  /** Every remembered generation is that of some replayed observation. */
  ghost predicate Witnessed(gens: map<Id, u64>, obs: seq<Observation>, n: nat, k: Domain)
    requires n <= |obs|
  {
    forall id :: id in gens ==>
      exists i :: 0 <= i < n && Subject(obs[i], k) == id != 0 && Generation(obs[i], k) == gens[id]
  }

  // ----- one replayed observation -----

  lemma HistoricalAccepts(s: State, o: Observation)
    requires WellFormed(o)
    requires forall k: Domain :: Subject(o, k) in Gens(s, k) && Subject(o, k) != 0 ==>
      Gens(s, k)[Subject(o, k)] <= Generation(o, k)
    ensures Ingest(s, true, o).status == if o.id in s.dedup then DuplicateObservation else Ok
  {
    hide Authorize;
    hide GateGenerations;
    hide Accept;
    hide WellFormed;
    AuthorizeFrame(s, true, o);
    AuthorizedInReplay(s, o);
    var a := Authorize(KnowSource(s, o), true, o);
    assert forall k: Domain :: Gens(a.state, k) == Gens(s, k);
    GatesOpen(a.state, o);
    GateFrame(a.state, o);
  }

  lemma AuthorizedInReplay(s: State, o: Observation)
    ensures Authorize(KnowSource(s, o), true, o).status == Ok
  {
  }

  /** What n accepted replay steps leave in the generation maps and in the window. */
  ghost predicate ReplayedTo(s: State, obs: seq<Observation>, n: nat)
    requires n <= |obs|
  {
    && (forall k: Domain :: Witnessed(Gens(s, k), obs, n, k))
    && Window(s, Ids(obs)[..n])
  }

  lemma NextPasses(gens: map<Id, u64>, obs: seq<Observation>, n: nat, k: Domain)
    requires n < |obs| && Ordered(obs, k) && Witnessed(gens, obs, n, k)
    ensures Subject(obs[n], k) in gens && Subject(obs[n], k) != 0 ==>
      gens[Subject(obs[n], k)] <= Generation(obs[n], k)
  {
  }

  lemma StillWitnessed(gens: map<Id, u64>, obs: seq<Observation>, n: nat, k: Domain)
    requires n < |obs| && Witnessed(gens, obs, n, k)
    ensures var id := Subject(obs[n], k);
      Witnessed(if id == 0 then gens else gens[id := Generation(obs[n], k)], obs, n + 1, k)
  {
  }

  /** In replay the only thing that can stop the next observation is its id in the window. */
  lemma ReplayNext(s: State, obs: seq<Observation>, n: nat)
    requires n < |obs| && Replayable(obs) && ReplayedTo(s, obs, n)
    ensures var r := Ingest(s, true, obs[n]);
      && (r.status == Ok <==> obs[n].id !in Last(Ids(obs)[..n], EffectiveCapacity(s.limits)))
      && (r.status == Ok ==> ReplayedTo(r.state, obs, n + 1) && r.state.limits == s.limits)
  {
    hide Ingest;
    hide WellFormed;
    hide Accumulate;
    hide Last;
    var o := obs[n];
    forall k: Domain
      ensures Subject(o, k) in Gens(s, k) && Subject(o, k) != 0 ==> Gens(s, k)[Subject(o, k)] <= Generation(o, k)
    {
      NextPasses(Gens(s, k), obs, n, k);
    }
    HistoricalAccepts(s, o);
    var r := Ingest(s, true, o);
    if r.status == Ok {
      NextReplayed(s, obs, n);
    }
  }

  lemma NextReplayed(s: State, obs: seq<Observation>, n: nat)
    requires n < |obs| && ReplayedTo(s, obs, n)
    requires Ingest(s, true, obs[n]).status == Ok
    ensures var r := Ingest(s, true, obs[n]); ReplayedTo(r.state, obs, n + 1) && r.state.limits == s.limits
  {
    hide Ingest;
    hide WellFormed;
    hide Window;
    var o, r := obs[n], Ingest(s, true, obs[n]);
    IngestFrame(s, true, o);
    IngestWindow(s, true, o, Ids(obs)[..n]);
    assert Ids(obs)[..n + 1] == Ids(obs)[..n] + [o.id];
    forall k: Domain
      ensures Witnessed(Gens(r.state, k), obs, n + 1, k)
    {
      AcceptedGenerations(s, true, o, k);
      StillWitnessed(Gens(s, k), obs, n, k);
    }
  }

  // ----- the whole replay -----

  /** While ids are spaced the replay accepts everything. */
  lemma {:induction false} SpacedReplays(s: State, obs: seq<Observation>, n: nat)
    requires n <= |obs| && Replayable(obs) && Spaced(obs, EffectiveCapacity(s.limits))
    ensures var r := Replay(Cleared(s), obs, n);
      r.status == Ok && ReplayedTo(r.state, obs, n) && r.state.limits == s.limits
  {
    hide Ingest;
    hide ReplayedTo;
    hide Replayable;
    if n == 0 {
      NothingReplayed(s, obs);
    } else {
      SpacedReplays(s, obs, n - 1);
      ReplayNext(Replay(Cleared(s), obs, n - 1).state, obs, n - 1);
      SpacedIsNew(obs, n - 1, EffectiveCapacity(s.limits));
    }
  }

  lemma NothingReplayed(s: State, obs: seq<Observation>)
    ensures ReplayedTo(Cleared(s), obs, 0)
  {
  }

  lemma SpacedIsNew(obs: seq<Observation>, n: nat, m: nat)
    requires n < |obs| && Spaced(obs, m)
    ensures obs[n].id !in Last(Ids(obs)[..n], m)
  {
    var ids := Ids(obs)[..n];
    var window := Last(ids, m);
    forall p | 0 <= p < |window|
      ensures window[p] != obs[n].id
    {
      assert window[p] == ids[|ids| - |window| + p] == obs[|ids| - |window| + p].id;
    }
  }

  /** A replay that accepts everything had spaced ids. */
  lemma {:induction false} ReplayedIsSpaced(s: State, obs: seq<Observation>, n: nat)
    requires n <= |obs| && Replayable(obs)
    requires Replay(Cleared(s), obs, n).status == Ok
    ensures Spaced(obs[..n], EffectiveCapacity(s.limits))
    ensures var r := Replay(Cleared(s), obs, n); ReplayedTo(r.state, obs, n) && r.state.limits == s.limits
  {
    hide Ingest;
    hide ReplayedTo;
    hide Replayable;
    if n == 0 {
      NothingReplayed(s, obs);
    } else {
      ReplayedIsSpaced(s, obs, n - 1);
      ReplayNext(Replay(Cleared(s), obs, n - 1).state, obs, n - 1);
      NewIsSpaced(obs, n - 1, EffectiveCapacity(s.limits));
    }
  }

  lemma NewIsSpaced(obs: seq<Observation>, n: nat, m: nat)
    requires n < |obs| && Spaced(obs[..n], m) && obs[n].id !in Last(Ids(obs)[..n], m)
    ensures Spaced(obs[..n + 1], m)
  {
    var shorter, longer := obs[..n], obs[..n + 1];
    forall i, j | 0 <= i < j < |longer| && longer[i].id == longer[j].id
      ensures j - i > m
    {
      if j < n {
        assert shorter[i].id == shorter[j].id;
      } else if n - i <= m {
        InsideLast(Ids(obs)[..n], i, m);
      }
    }
  }

  /** A replay of replayable observations accepts them all if and only if no id repeats within the dedup window. */
  lemma ReplaySucceeds(s: State, obs: seq<Observation>)
    requires Replayable(obs)
    ensures Replay(Cleared(s), obs, |obs|).status == Ok <==> Spaced(obs, EffectiveCapacity(s.limits))
  {
    hide Replayable;
    if Replay(Cleared(s), obs, |obs|).status == Ok {
      ReplayedIsSpaced(s, obs, |obs|);
      assert obs[..|obs|] == obs;
    }
    if Spaced(obs, EffectiveCapacity(s.limits)) {
      SpacedReplays(s, obs, |obs|);
    }
  }

  // ----- save, then load -----

  lemma ReachableIsReplayable(limits: Limits, epoch: u64, generation: u64, ops: seq<Op>, i: nat)
    requires i <= |ops|
    ensures var s := StateAt(Init(limits, epoch, generation), ops, i);
      Replayable(s.history) && |s.history| <= limits.maxObservations
  {
    hide StateAt;
    hide LogAt;
    hide Faithful;
    hide Generational;
    hide Replayable;
    hide Window;
    var s0 := Init(limits, epoch, generation);
    RunFaithful(limits, epoch, generation, ops, i);
    RunGenerational(limits, epoch, generation, ops, i);
    RunWindow(limits, epoch, generation, ops, i);
    HistoryIsReplayable(StateAt(s0, ops, i), LogAt(s0, ops, i));
  }

  lemma HistoryIsReplayable(s: State, log: seq<Observation>)
    requires Faithful(s, log) && Generational(s, log)
    ensures Replayable(s.history) && |s.history| <= s.limits.maxObservations
  {
    hide DevicesOf;
    hide WellFormed;
    hide Generational;
    hide Ordered;
    HistoryGenerational(s, log);
    GenerationalIsOrdered(s, s.history);
    assert forall k :: 0 <= k < |s.history| ==> s.history[k] == log[|log| - |s.history| + k];
  }

  lemma GenerationalIsOrdered(s: State, log: seq<Observation>)
    requires Generational(s, log)
    ensures forall k: Domain :: Ordered(log, k)
  {
  }

  /** What was saved parses to the history. */
  lemma SavedFileParses(s: State)
    requires |s.history| < U64_LIMIT
    ensures FileFormat.Parse(Save(s)) == Some(s.history)
  {
    FileTheorems.ParserIsExactInverse(Save(s), s.history);
    hide FileFormat.Parse;
    hide FileFormat.File;
    assert Save(s) == FileFormat.File(s.epoch, s.generation, s.history);
  }

  /**
   Loading what a reachable observatory saved, into any observatory, succeeds if and only if no id
   repeats within the loader's dedup window. Then the loader holds the evidence of the whole saved
   history, and of the history itself as much as its own bound keeps (all of it when it fits); it
   keeps its limits and running epoch, and every source is disconnected.
   */
  lemma {:induction false} SavedStateLoads(limits: Limits, epoch: u64, generation: u64, ops: seq<Op>, i: nat,
                                           loader: State)
    requires i <= |ops|
    ensures var s := StateAt(Init(limits, epoch, generation), ops, i);
      var r := Load(loader, Save(s));
      && (r.status == Ok <==> Spaced(s.history, EffectiveCapacity(loader.limits)))
      && (r.status == Ok ==>
            && r.state.history == Last(s.history, loader.limits.maxObservations)
            && r.state.devices == DevicesOf(s.history, |s.history|)
            && r.state.limits == loader.limits && r.state.epoch == loader.epoch
            && (forall id :: id in r.state.sources ==> !r.state.sources[id].connected))
  {
    hide StateAt;
    hide Replay;
    hide Replayable;
    hide Spaced;
    hide Faithful;
    hide FileFormat.Parse;
    hide FileFormat.File;
    var s := StateAt(Init(limits, epoch, generation), ops, i);
    ReachableIsReplayable(limits, epoch, generation, ops, i);
    SavedFileParses(s);
    ReplaySucceeds(loader, s.history);
    ReplayKeepsLimits(Cleared(loader), s.history, |s.history|);
    if Replay(Cleared(loader), s.history, |s.history|).status == Ok {
      CompleteReplay(loader, s.history);
    }
  }

  /** A replay that accepts everything leaves the accumulators of all of it and as much history as fits. */
  lemma CompleteReplay(s: State, obs: seq<Observation>)
    requires Replay(Cleared(s), obs, |obs|).status == Ok
    ensures var t := Replay(Cleared(s), obs, |obs|).state;
      t.devices == DevicesOf(obs, |obs|) && t.history == Last(obs, s.limits.maxObservations)
  {
    hide Replay;
    hide Faithful;
    hide DevicesOf;
    hide Last;
    NothingFaithful(s.limits, s.epoch, s.generation);
    ReplayFaithful(Cleared(s), obs, |obs|);
    ReplayKeepsLimits(Cleared(s), obs, |obs|);
    assert obs[..|obs|] == obs;
    FaithfulShowsLog(Replay(Cleared(s), obs, |obs|).state, obs);
  }

  lemma FaithfulShowsLog(s: State, log: seq<Observation>)
    requires Faithful(s, log)
    ensures s.devices == DevicesOf(log, |log|) && s.history == Last(log, s.limits.maxObservations)
  {
    hide DevicesOf;
    hide WellFormed;
  }

  lemma DistinctIsSpaced(obs: seq<Observation>, m: nat)
    requires forall i, j :: 0 <= i < j < |obs| ==> obs[i].id != obs[j].id
    ensures Spaced(obs, m)
  {
  }

  /**
   With pairwise distinct history ids, a loader whose history bound is no smaller always succeeds
   and restores history and digest; if nothing was ever dropped it restores every accumulator, so
   every window, gap and timeline.
   */
  lemma {:induction false} RoundTripRestores(limits: Limits, epoch: u64, generation: u64, ops: seq<Op>, i: nat,
                                             loader: State)
    requires i <= |ops| && limits.maxObservations <= loader.limits.maxObservations
    requires var h := StateAt(Init(limits, epoch, generation), ops, i).history;
      forall a, b :: 0 <= a < b < |h| ==> h[a].id != h[b].id
    ensures var s0 := Init(limits, epoch, generation);
      var s, log := StateAt(s0, ops, i), LogAt(s0, ops, i);
      var r := Load(loader, Save(s));
      && r.status == Ok && r.state.history == s.history
      && (forall x, y :: IsDigest(s.history, x) && IsDigest(r.state.history, y) ==> x == y)
      && (|log| == |s.history| ==> r.state.devices == s.devices)
  {
    hide StateAt;
    hide LogAt;
    hide DevicesOf;
    hide Load;
    hide IsDigest;
    hide WellFormed;
    hide Spaced;
    var s0 := Init(limits, epoch, generation);
    var s, log := StateAt(s0, ops, i), LogAt(s0, ops, i);
    RunFaithful(limits, epoch, generation, ops, i);
    RunWindow(limits, epoch, generation, ops, i);
    DistinctIsSpaced(s.history, EffectiveCapacity(loader.limits));
    SavedStateLoads(limits, epoch, generation, ops, i, loader);
    DistinctIdsOneDigest(s.history);
  }

  // ----- when an observatory's own file loads -----

  /** No ingest, live or in a load, was refused as malformed in the first i steps. */
  ghost predicate NothingMalformed(s0: State, ops: seq<Op>, i: nat)
    requires i <= |ops|
  {
    forall m :: 0 <= m < i && (ops[m].IngestOp? || ops[m].LoadOp?) ==> StatusAt(s0, ops, m) != InvalidInput
  }

  /** The window remembers accepted ids only, so none repeats in the log while it is remembered. */
  ghost predicate Unwasted(s: State, log: seq<Observation>) {
    Window(s, Ids(log)) && Spaced(log, EffectiveCapacity(s.limits))
  }

  lemma IngestUnwasted(s: State, historical: bool, o: Observation, log: seq<Observation>)
    requires Unwasted(s, log) && Ingest(s, historical, o).status != InvalidInput
    ensures var r := Ingest(s, historical, o); Unwasted(r.state, if r.status == Ok then log + [o] else log)
  {
    hide Ingest;
    hide Window;
    hide Spaced;
    hide Last;
    IngestFrame(s, historical, o);
    IngestRemembers(s, historical, o);
    IngestWindow(s, historical, o, Ids(log));
    if Ingest(s, historical, o).status == Ok {
      var log' := log + [o];
      NotInWindow(s, Ids(log), o.id);
      assert Ids(log') == Ids(log) + [o.id];
      assert Ids(log')[..|log|] == Ids(log) && log'[..|log|] == log && log'[..|log| + 1] == log';
      NewIsSpaced(log', |log|, EffectiveCapacity(s.limits));
    }
  }

  lemma NothingWasted(s: State)
    ensures Unwasted(Cleared(s), [])
  {
    assert Ids([]) == [];
  }

  lemma {:induction false} ReplayUnwasted(s: State, obs: seq<Observation>, n: nat)
    requires n <= |obs| && Replay(Cleared(s), obs, n).status != InvalidInput
    ensures Unwasted(Replay(Cleared(s), obs, n).state, obs[..ReplayedCount(Cleared(s), obs, n)])
  {
    hide Ingest;
    hide Unwasted;
    if n > 0 {
      ReplayUnwasted(s, obs, n - 1);
      var r := Replay(Cleared(s), obs, n - 1);
      if r.status == Ok {
        IngestUnwasted(r.state, true, obs[n - 1], obs[..n - 1]);
        assert obs[..n] == obs[..n - 1] + [obs[n - 1]];
      }
    } else {
      NothingWasted(s);
      assert obs[..0] == [];
    }
  }

  lemma StepUnwasted(s: State, op: Op, log: seq<Observation>)
    requires Unwasted(s, log) && (op.IngestOp? || op.LoadOp? ==> Step(s, op).status != InvalidInput)
    ensures Unwasted(Step(s, op).state, LogAfter(s, log, op))
  {
    hide Ingest;
    hide FileFormat.Parse;
    hide Spaced;
    match op {
      case IngestOp(o) => IngestUnwasted(s, false, o, log);
      case LoadOp(file) =>
        var parsed := FileFormat.Parse(file);
        if parsed.Some? {
          ReplayUnwasted(s, parsed.value, |parsed.value|);
          var t := Replay(Cleared(s), parsed.value, |parsed.value|).state;
          SameWindow(t, DisconnectAll(t), Ids(LogAfter(s, log, op)));
        }
      case _ => SameWindow(s, Step(s, op).state, Ids(log));
    }
  }

  lemma {:induction false} RunUnwasted(limits: Limits, epoch: u64, generation: u64, ops: seq<Op>, i: nat)
    requires i <= |ops| && NothingMalformed(Init(limits, epoch, generation), ops, i)
    ensures var s0 := Init(limits, epoch, generation); Unwasted(StateAt(s0, ops, i), LogAt(s0, ops, i))
  {
    hide Step;
    hide LogAfter;
    hide Unwasted;
    var s0 := Init(limits, epoch, generation);
    NothingWasted(s0);
    if i > 0 {
      RunUnwasted(limits, epoch, generation, ops, i - 1);
      assert ops[i - 1].IngestOp? || ops[i - 1].LoadOp? ==> StatusAt(s0, ops, i - 1) != InvalidInput;
      StepUnwasted(StateAt(s0, ops, i - 1), ops[i - 1], LogAt(s0, ops, i - 1));
    }
  }

  lemma SuffixIsSpaced(log: seq<Observation>, d: nat, m: nat, m': nat)
    requires d <= |log| && Spaced(log, m) && m' <= m
    ensures Spaced(log[d..], m')
  {
    var suffix := log[d..];
    forall i, j | 0 <= i < j < |suffix| && suffix[i].id == suffix[j].id
      ensures j - i > m'
    {
      assert log[d + i].id == log[d + j].id;
    }
  }

  /**
   Only a malformed observation can make a saved file unloadable: without one, in live traffic or
   in a load, every observatory whose dedup window is no larger loads what this one saves.
   */
  lemma {:induction false} OwnFileLoads(limits: Limits, epoch: u64, generation: u64, ops: seq<Op>, i: nat,
                                        loader: State)
    requires i <= |ops| && NothingMalformed(Init(limits, epoch, generation), ops, i)
    requires EffectiveCapacity(loader.limits) <= EffectiveCapacity(limits)
    ensures Load(loader, Save(StateAt(Init(limits, epoch, generation), ops, i))).status == Ok
  {
    hide StateAt;
    hide LogAt;
    hide Faithful;
    hide Load;
    hide Save;
    hide Spaced;
    hide Window;
    hide Unwasted;
    hide NothingMalformed;
    hide EffectiveCapacity;
    var s0 := Init(limits, epoch, generation);
    RunFaithful(limits, epoch, generation, ops, i);
    RunWindow(limits, epoch, generation, ops, i);
    RunUnwasted(limits, epoch, generation, ops, i);
    HistoryIsSpaced(StateAt(s0, ops, i), LogAt(s0, ops, i), EffectiveCapacity(loader.limits));
    SavedStateLoads(limits, epoch, generation, ops, i, loader);
  }

  lemma HistoryIsSpaced(s: State, log: seq<Observation>, m: nat)
    requires Faithful(s, log) && Unwasted(s, log) && m <= EffectiveCapacity(s.limits)
    ensures Spaced(s.history, m)
  {
    hide DevicesOf;
    hide WellFormed;
    hide Spaced;
    hide Window;
    hide EffectiveCapacity;
    SuffixIsSpaced(log, |log| - |s.history|, EffectiveCapacity(s.limits), m);
  }

  // ----- a reload never invents evidence -----

  /** A pair of a stretch of the log is a pair of the log. */
  lemma StretchMakes(log: seq<Observation>, a: nat, b: nat, d: Id, e: EventSpan, i: int, j: int)
    requires a <= b <= |log| && Makes(log[a..b], d, e, i, j)
    ensures Makes(log, d, e, a + i, a + j)
  {
    hide PairEvent;
    hide Couple;
    hide SameSubject;
    var part := log[a..b];
    forall k | a + i < k < a + j
      ensures SameSubject(log[k], log[a + j]) ==> log[k].kind != log[a + i].kind && log[k].kind != log[a + j].kind
    {
      assert log[k] == part[k - a];
    }
  }

  lemma StretchEvents(log: seq<Observation>, a: nat, b: nat, d: Id, e: EventSpan)
    requires a <= b <= |log| && e in EventsOf(log[a..b], b - a, d)
    ensures e in EventsOf(log, |log|, d)
  {
    hide Makes;
    hide EventsOf;
    EventsArePairs(log[a..b], b - a, d, e);
    var i, j :| j < b - a && Makes(log[a..b], d, e, i, j);
    StretchMakes(log, a, b, d, e, i, j);
    EventsArePairs(log, |log|, d, e);
  }

  /** However much a replay accepted, the loader's evidence is that of a stretch of the saved log. */
  lemma LoadedStretch(loader: State, s: State, log: seq<Observation>) returns (a: nat, b: nat)
    requires Faithful(s, log)
    ensures a <= b <= |log|
    ensures Load(loader, Save(s)).state.devices == DevicesOf(log[a..b], b - a)
  {
    hide DevicesOf;
    hide WellFormed;
    hide Replay;
    hide FileFormat.Parse;
    hide FileFormat.File;
    SavedFileParses(s);
    hide Save;
    NothingFaithful(loader.limits, loader.epoch, loader.generation);
    ReplayFaithful(Cleared(loader), s.history, |s.history|);
    var k := ReplayedCount(Cleared(loader), s.history, |s.history|);
    a, b := |log| - |s.history|, |log| - |s.history| + k;
    assert log[a..b] == s.history[..k];
  }

  /**
   Loading what a reachable observatory saved, whether or not the replay completes, never shows more
   than was there: no event is new, no window component grows, and the unknown part of the gap does
   not shrink.
   */
  lemma {:induction false} ReloadAddsNothing(limits: Limits, epoch: u64, generation: u64, ops: seq<Op>, i: nat,
                                             loader: State, d: Id, win: Interval)
    requires i <= |ops|
    ensures var s := StateAt(Init(limits, epoch, generation), ops, i);
      var t := Load(loader, Save(s)).state;
      && (forall e :: e in EventsIn(t.devices, d) ==> e in EventsIn(s.devices, d))
      && AtMost(WindowOf(EventsIn(t.devices, d), win), WindowOf(EventsIn(s.devices, d), win))
      && (win.Duration() > 0 ==>
            GapOf(s.devices, d, win).unknown.numerator <= GapOf(t.devices, d, win).unknown.numerator)
  {
    hide StateAt;
    hide LogAt;
    hide DevicesOf;
    hide EventsOf;
    hide Load;
    hide WindowOf;
    hide AtMost;
    hide GapOf;
    hide Save;
    var s0 := Init(limits, epoch, generation);
    var s, log := StateAt(s0, ops, i), LogAt(s0, ops, i);
    var t := Load(loader, Save(s)).state;
    RunFaithful(limits, epoch, generation, ops, i);
    var a, b := LoadedStretch(loader, s, log);
    DevicesReadLog(s.devices, log, d);
    DevicesReadLog(t.devices, log[a..b], d);
    forall e | e in EventsIn(t.devices, d)
      ensures e in EventsIn(s.devices, d)
    {
      StretchEvents(log, a, b, d, e);
    }
    MoreEventsShowMore(t.devices, s.devices, d, win);
  }
}
