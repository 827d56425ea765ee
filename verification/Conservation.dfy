/** Every ingest is counted exactly once, and what is kept plus what is dropped is what was accepted. */
module Conservation {
  import opened Words
  import opened Observations
  import opened Engine
  import opened Machine
  import opened Reachability
  import FileFormat
  import DedupWindow
  import Interleaving

  /** accepted + rejected + duplicates + stale, as the 64-bit counters add up. */
  function Answered(c: Counters): u64 {
    (c.accepted + c.rejected + c.duplicates + c.stale) % U64_LIMIT
  }

  /** How many observations a replay of n tried, the refused last one included. */
  function Attempts(s: State, obs: seq<Observation>, n: nat): (tried: nat)
    requires n <= |obs|
    ensures tried <= n
  {
    var k := ReplayedCount(s, obs, n);
    if k < n then k + 1 else k
  }

  /** Ingest attempts since construction or the last effective load. */
  function AttemptsAt(s0: State, ops: seq<Op>, i: nat): nat
    requires i <= |ops|
  {
    if i == 0 then 0 else
    var s, before := StateAt(s0, ops, i - 1), AttemptsAt(s0, ops, i - 1);
    match ops[i - 1]
    case IngestOp(_) => before + 1
    case LoadOp(file) =>
      var parsed := FileFormat.Parse(file);
      if parsed.None? then before else Attempts(Cleared(s), parsed.value, |parsed.value|)
    case _ => before
  }

  /** Exactly one of the four counters moves, by one, and which one follows from the answer. */
  lemma IngestCountsOnce(s: State, historical: bool, o: Observation)
    ensures var r := Ingest(s, historical, o);
      var c, d := s.counters, r.state.counters;
      && d.accepted == (if r.status == Ok then WrapAdd(c.accepted, 1) else c.accepted)
      && d.duplicates == (if r.status == DuplicateObservation then WrapAdd(c.duplicates, 1) else c.duplicates)
      && d.rejected == (if r.status in {InvalidInput, SourceDisconnected} then WrapAdd(c.rejected, 1) else c.rejected)
      && d.stale == (if r.status in {StaleAuthority, StaleEvidence} then WrapAdd(c.stale, 1) else c.stale)
  {
    hide Authorize;
    hide GateGenerations;
    hide Commit;
    AuthorizeCounts(s, historical, o);
    AuthorizeFrame(s, historical, o);
    var a := Authorize(KnowSource(s, o), historical, o);
    GateCounts(a.state, o);
    GateFrame(a.state, o);
    CommitCounts(GateGenerations(a.state, o).state, o);
  }

  lemma AuthorizeCounts(s: State, historical: bool, o: Observation)
    ensures var a := Authorize(KnowSource(s, o), historical, o);
      var c, d := s.counters, a.state.counters;
      && a.status in {Ok, StaleAuthority, SourceDisconnected}
      && d.rejected == (if a.status == SourceDisconnected then WrapAdd(c.rejected, 1) else c.rejected)
      && d.stale == (if a.status == StaleAuthority then WrapAdd(c.stale, 1) else c.stale)
  {
  }

  lemma GateCounts(s: State, o: Observation)
    ensures var g := GateGenerations(s, o);
      g.state.counters.stale == (if g.status == StaleEvidence then WrapAdd(s.counters.stale, 1) else s.counters.stale)
  {
    hide Gate;
  }

  lemma CommitCounts(s: State, o: Observation)
    requires o.source in s.sources
    ensures var r := Commit(s, o);
      var c, d := s.counters, r.state.counters;
      && r.status in {Ok, DuplicateObservation, InvalidInput}
      && d.accepted == (if r.status == Ok then WrapAdd(c.accepted, 1) else c.accepted)
      && d.duplicates == (if r.status == DuplicateObservation then WrapAdd(c.duplicates, 1) else c.duplicates)
      && d.rejected == (if r.status == InvalidInput then WrapAdd(c.rejected, 1) else c.rejected)
      && d.stale == c.stale
  {
    hide Accumulate;
    hide WellFormed;
  }

  lemma OneMore(a: u64, b: u64, c: u64, d: u64, n: nat)
    requires (a + b + c + d) % U64_LIMIT == n % U64_LIMIT
    ensures (WrapAdd(a, 1) + b + c + d) % U64_LIMIT == (n + 1) % U64_LIMIT
  {
    var x := a + b + c + d;
    var q := n / U64_LIMIT - x / U64_LIMIT;
    assert n + 1 == x + 1 + q * U64_LIMIT;
    assert WrapAdd(a, 1) == if a + 1 == U64_LIMIT then 0 else a + 1;
  }

  lemma IngestAnswered(s: State, historical: bool, o: Observation, n: nat)
    requires Answered(s.counters) == n % U64_LIMIT
    ensures Answered(Ingest(s, historical, o).state.counters) == (n + 1) % U64_LIMIT
  {
    hide Ingest;
    var c := s.counters;
    IngestFrame(s, historical, o);
    IngestCountsOnce(s, historical, o);
    OneMore(c.accepted, c.rejected, c.duplicates, c.stale, n);
    OneMore(c.rejected, c.accepted, c.duplicates, c.stale, n);
    OneMore(c.duplicates, c.accepted, c.rejected, c.stale, n);
    OneMore(c.stale, c.accepted, c.rejected, c.duplicates, n);
  }

  lemma {:induction false} ReplayAnswered(s: State, obs: seq<Observation>, n: nat)
    requires n <= |obs| && Answered(s.counters) == 0
    ensures Answered(Replay(s, obs, n).state.counters) == Attempts(s, obs, n) % U64_LIMIT
  {
    hide Ingest;
    hide Answered;
    if n > 0 {
      ReplayAnswered(s, obs, n - 1);
      var r := Replay(s, obs, n - 1);
      if r.status == Ok {
        IngestAnswered(r.state, true, obs[n - 1], n - 1);
      }
    }
  }

  /** In every reachable state the four counters add up to the number of attempts, modulo 2^64. */
  lemma {:induction false} RunAnswered(limits: Limits, epoch: u64, generation: u64, ops: seq<Op>, i: nat)
    requires i <= |ops|
    ensures var s0 := Init(limits, epoch, generation);
      Answered(StateAt(s0, ops, i).counters) == AttemptsAt(s0, ops, i) % U64_LIMIT
  {
    hide Ingest;
    hide Answered;
    hide FileFormat.Parse;
    var s0 := Init(limits, epoch, generation);
    NothingAnswered();
    if i > 0 {
      RunAnswered(limits, epoch, generation, ops, i - 1);
      var s, op := StateAt(s0, ops, i - 1), ops[i - 1];
      match op {
        case IngestOp(o) => IngestAnswered(s, false, o, AttemptsAt(s0, ops, i - 1));
        case LoadOp(file) =>
          var parsed := FileFormat.Parse(file);
          if parsed.Some? {
            ReplayAnswered(Cleared(s), parsed.value, |parsed.value|);
          }
        case _ => LifecycleAnswered(s, op);
      }
    }
  }

  lemma NothingAnswered()
    ensures Answered(NO_COUNTS) == 0
  {
  }

  lemma LifecycleAnswered(s: State, op: Op)
    requires !op.IngestOp? && !op.LoadOp?
    ensures Answered(Step(s, op).state.counters) == Answered(s.counters)
  {
  }

  /** The history holds what was accepted and not dropped, and never more than its bound. */
  lemma HistoryIsAcceptedMinusDropped(limits: Limits, epoch: u64, generation: u64, ops: seq<Op>, i: nat)
    requires i <= |ops|
    ensures var s := StateAt(Init(limits, epoch, generation), ops, i);
      && |s.history| <= limits.maxObservations
      && |s.history| == (s.counters.accepted - s.counters.dropped) % U64_LIMIT
  {
    hide StateAt;
    hide LogAt;
    hide Faithful;
    var s0 := Init(limits, epoch, generation);
    RunFaithful(limits, epoch, generation, ops, i);
    LimitsStay(limits, epoch, generation, ops, i);
    FaithfulBalances(StateAt(s0, ops, i), LogAt(s0, ops, i));
  }

  lemma FaithfulBalances(s: State, log: seq<Observation>)
    requires Faithful(s, log)
    ensures |s.history| <= s.limits.maxObservations
    ensures |s.history| == (s.counters.accepted - s.counters.dropped) % U64_LIMIT
  {
    hide DevicesOf;
    hide WellFormed;
    hide Counts;
    hide Keeps;
    KeptFits(s.history, log, s.limits.maxObservations);
    DifferenceOfCounts(s.counters.accepted, s.counters.dropped, |log|, |s.history|);
  }

  lemma KeptFits(history: seq<Observation>, log: seq<Observation>, bound: nat)
    requires Keeps(history, log, bound)
    ensures |history| <= |log| && |history| <= bound
  {
  }

  lemma DifferenceOfCounts(c: u64, d: u64, n: nat, kept: u64)
    requires kept <= n && Counts(c, n) && Counts(d, n - kept)
    ensures kept == (c - d) % U64_LIMIT
  {
  }

  lemma {:induction false} LimitsStay(limits: Limits, epoch: u64, generation: u64, ops: seq<Op>, i: nat)
    requires i <= |ops|
    ensures StateAt(Init(limits, epoch, generation), ops, i).limits == limits
  {
    DedupWindow.RunWindow(limits, epoch, generation, ops, i);
  }

  // ----- disconnects and reconnects -----

  /** Some source went from connected to disconnected. */
  ghost predicate WentDown(s: State, t: State) {
    exists id :: id in s.sources && id in t.sources && s.sources[id].connected && !t.sources[id].connected
  }

  /** Some known source went from disconnected to connected. */
  ghost predicate CameBack(s: State, t: State) {
    exists id :: id in s.sources && id in t.sources && !s.sources[id].connected && t.sources[id].connected
  }

  /** The observation brings its disconnected source back. */
  predicate Reestablishes(s: State, o: Observation) {
    o.source in s.sources && !s.sources[o.source].connected && !SameAuthority(s.sources[o.source], o)
  }

  lemma AuthorizeLinks(s: State, o: Observation)
    ensures var t := Authorize(KnowSource(s, o), false, o).state;
      && t.counters.disconnects == s.counters.disconnects
      && t.counters.reconnects
           == (if Reestablishes(s, o) then WrapAdd(s.counters.reconnects, 1) else s.counters.reconnects)
      && (forall id :: id in s.sources ==>
            && id in t.sources
            && t.sources[id].connected == (s.sources[id].connected || (id == o.source && Reestablishes(s, o))))
  {
    hide WrapAdd;
  }

  lemma CommitLinks(s: State, o: Observation)
    requires o.source in s.sources
    ensures var t := Commit(s, o).state;
      && t.counters.disconnects == s.counters.disconnects && t.counters.reconnects == s.counters.reconnects
      && (forall id :: id in s.sources ==> id in t.sources && t.sources[id].connected == s.sources[id].connected)
  {
    Interleaving.CommitIsLocal(s, o);
    CommitKeepsLinkCounters(s, o);
    hide Commit;
    hide Accumulate;
    hide WellFormed;
  }

  lemma CommitKeepsLinkCounters(s: State, o: Observation)
    requires o.source in s.sources
    ensures var t := Commit(s, o).state;
      t.counters.disconnects == s.counters.disconnects && t.counters.reconnects == s.counters.reconnects
  {
    hide Accumulate;
    hide WellFormed;
    hide WrapAdd;
  }

  lemma IngestLinks(s: State, o: Observation)
    ensures var t := Ingest(s, false, o).state;
      var back := o.coordinatorEpoch == s.epoch && Reestablishes(s, o);
      && t.counters.disconnects == s.counters.disconnects
      && t.counters.reconnects == (if back then WrapAdd(s.counters.reconnects, 1) else s.counters.reconnects)
      && (forall id :: id in s.sources ==>
            && id in t.sources
            && t.sources[id].connected == (s.sources[id].connected || (id == o.source && back)))
  {
    hide Authorize;
    hide GateGenerations;
    hide Commit;
    hide Reestablishes;
    hide WrapAdd;
    AuthorizeLinks(s, o);
    AuthorizeFrame(s, false, o);
    var a := Authorize(KnowSource(s, o), false, o);
    GateFrame(a.state, o);
    CommitLinks(GateGenerations(a.state, o).state, o);
  }

  /** Outside loads, the two counters move exactly when a call takes a source down or brings one back. */
  lemma StepLinks(s: State, op: Op)
    requires !op.LoadOp?
    ensures var t := Step(s, op).state;
      && t.counters.disconnects
           == (if WentDown(s, t) then WrapAdd(s.counters.disconnects, 1) else s.counters.disconnects)
      && t.counters.reconnects
           == (if CameBack(s, t) && !op.RegisterOp? then WrapAdd(s.counters.reconnects, 1)
               else s.counters.reconnects)
  {
    hide Ingest;
    hide WrapAdd;
    if op.IngestOp? {
      IngestLinks(s, op.o);
      if op.o.source in s.sources && op.o.coordinatorEpoch == s.epoch && Reestablishes(s, op.o) {
        assert Step(s, op).state.sources[op.o.source].connected;
      }
    } else if op.ConnectOp? || op.DisconnectOp? {
      if op.id in s.sources {
        var t := Step(s, op).state;
        assert t.sources[op.id].connected == op.ConnectOp?;
      }
    }
  }

  /** The calls since the last effective load that took a connected source down. */
  ghost function DownsAt(s0: State, ops: seq<Op>, i: nat): nat
    requires i <= |ops|
  {
    if i == 0 then 0 else
    var s, t, before := StateAt(s0, ops, i - 1), StateAt(s0, ops, i), DownsAt(s0, ops, i - 1);
    match ops[i - 1]
    case LoadOp(file) => if FileFormat.Parse(file).None? then before else 0
    case _ => if WentDown(s, t) then before + 1 else before
  }

  /** The calls since the last effective load, registrations apart, that brought a known source back. */
  ghost function ReturnsAt(s0: State, ops: seq<Op>, i: nat): nat
    requires i <= |ops|
  {
    if i == 0 then 0 else
    var s, t, before := StateAt(s0, ops, i - 1), StateAt(s0, ops, i), ReturnsAt(s0, ops, i - 1);
    match ops[i - 1]
    case LoadOp(file) => if FileFormat.Parse(file).None? then before else 0
    case RegisterOp(_, _, _, _) => before
    case _ => if CameBack(s, t) then before + 1 else before
  }

  lemma {:induction false} ReplayLinks(s: State, obs: seq<Observation>, n: nat)
    requires n <= |obs|
    ensures var c := Replay(Cleared(s), obs, n).state.counters; c.disconnects == 0 && c.reconnects == 0
  {
    hide Ingest;
    if n > 0 {
      ReplayLinks(s, obs, n - 1);
      HistoricalLinks(Replay(Cleared(s), obs, n - 1).state, obs[n - 1]);
    }
  }

  lemma HistoricalLinks(s: State, o: Observation)
    ensures var c := Ingest(s, true, o).state.counters;
      c.disconnects == s.counters.disconnects && c.reconnects == s.counters.reconnects
  {
    hide GateGenerations;
    hide Commit;
    hide WellFormed;
    hide WrapAdd;
    AuthorizeFrame(s, true, o);
    var a := Authorize(KnowSource(s, o), true, o);
    GateFrame(a.state, o);
    CommitKeepsLinkCounters(GateGenerations(a.state, o).state, o);
  }

  /** Disconnects and reconnects are counted by what happened to the sources, modulo 2^64. */
  lemma {:induction false} RunCountsLinks(limits: Limits, epoch: u64, generation: u64, ops: seq<Op>, i: nat)
    requires i <= |ops|
    ensures var s0 := Init(limits, epoch, generation);
      var c := StateAt(s0, ops, i).counters;
      && Counts(c.disconnects, DownsAt(s0, ops, i))
      && Counts(c.reconnects, ReturnsAt(s0, ops, i))
  {
    hide Step;
    hide Counts;
    hide WentDown;
    hide CameBack;
    hide FileFormat.Parse;
    var s0 := Init(limits, epoch, generation);
    NothingCounted();
    if i > 0 {
      RunCountsLinks(limits, epoch, generation, ops, i - 1);
      var s, op := StateAt(s0, ops, i - 1), ops[i - 1];
      WrapCounts(DownsAt(s0, ops, i - 1), s.counters.disconnects);
      WrapCounts(ReturnsAt(s0, ops, i - 1), s.counters.reconnects);
      if op.LoadOp? {
        LoadLinks(s, op.file);
      } else {
        StepLinks(s, op);
      }
    }
  }

  lemma NothingCounted()
    ensures Counts(0, 0)
  {
  }

  lemma LoadLinks(s: State, file: seq<u8>)
    ensures var c := Step(s, LoadOp(file)).state.counters;
      if FileFormat.Parse(file).None? then c == s.counters else c.disconnects == 0 && c.reconnects == 0
  {
    hide FileFormat.Parse;
    hide Ingest;
    if FileFormat.Parse(file).Some? {
      ReplayLinks(s, FileFormat.Parse(file).value, |FileFormat.Parse(file).value|);
    }
  }
}
