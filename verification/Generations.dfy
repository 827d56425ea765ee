/** Device, workload and evidence generations: what the three maps and the accepted log promise each other. */
module Generations {
  import opened Words
  import opened Observations
  import opened Engine
  import opened Machine
  import opened Reachability
  import FileFormat

  datatype Domain = DeviceDomain | WorkloadDomain | EvidenceDomain

  function Subject(o: Observation, k: Domain): Id {
    match k
    case DeviceDomain => o.device
    case WorkloadDomain => o.workload
    case EvidenceDomain => o.evidence
  }

  function Generation(o: Observation, k: Domain): u64 {
    match k
    case DeviceDomain => o.deviceGeneration
    case WorkloadDomain => o.workloadGeneration
    case EvidenceDomain => o.evidenceGeneration
  }

  function Gens(s: State, k: Domain): map<Id, u64> {
    match k
    case DeviceDomain => s.deviceGens
    case WorkloadDomain => s.workloadGens
    case EvidenceDomain => s.evidenceGens
  }

  /** Nothing is forgotten and no generation goes down. */
  ghost predicate NeverLower(a: map<Id, u64>, b: map<Id, u64>) {
    forall id :: id in a ==> id in b && a[id] <= b[id]
  }

  /** Per valid identity the log never goes back in generation. */
  ghost predicate Ordered(log: seq<Observation>, k: Domain) {
    forall i, j :: 0 <= i < j < |log| && Subject(log[i], k) == Subject(log[j], k) != 0 ==>
      Generation(log[i], k) <= Generation(log[j], k)
  }

  /** The map knows every valid identity of the log, at no lower a generation. */
  ghost predicate Bounded(log: seq<Observation>, gens: map<Id, u64>, k: Domain) {
    forall i :: 0 <= i < |log| && Subject(log[i], k) != 0 ==>
      Subject(log[i], k) in gens && Generation(log[i], k) <= gens[Subject(log[i], k)]
  }

  ghost predicate Generational(s: State, log: seq<Observation>) {
    forall k: Domain :: Ordered(log, k) && Bounded(log, Gens(s, k), k)
  }

  lemma GateRaises(gens: map<Id, u64>, id: Id, generation: u64)
    ensures var g := Gate(gens, id, generation);
      && (g.None? <==> id != 0 && id in gens && generation < gens[id])
      && (g.Some? ==> NeverLower(gens, g.value) && (id != 0 ==> id in g.value && g.value[id] == generation))
      && (g.Some? ==> forall x :: x != id ==> (x in g.value <==> x in gens) && (x in gens ==> g.value[x] == gens[x]))
  {
  }

  /** No ingest, whatever its answer, lowers a generation; an accepted one leaves its own generations current. */
  lemma IngestRaises(s: State, historical: bool, o: Observation, k: Domain)
    ensures var r := Ingest(s, historical, o);
      && NeverLower(Gens(s, k), Gens(r.state, k))
      && (r.status == Ok && Subject(o, k) != 0 ==>
            Subject(o, k) in Gens(r.state, k) && Gens(r.state, k)[Subject(o, k)] == Generation(o, k))
  {
    hide Authorize;
    hide GateGenerations;
    hide Commit;
    AuthorizeFrame(s, historical, o);
    var a := Authorize(KnowSource(s, o), historical, o);
    GatesRaise(a.state, o, k);
    GateFrame(a.state, o);
    CommitFrame(GateGenerations(a.state, o).state, o);
  }

  lemma GatesRaise(s: State, o: Observation, k: Domain)
    ensures var g := GateGenerations(s, o);
      && NeverLower(Gens(s, k), Gens(g.state, k))
      && (g.status == Ok && Subject(o, k) != 0 ==>
            Subject(o, k) in Gens(g.state, k) && Gens(g.state, k)[Subject(o, k)] == Generation(o, k))
  {
    hide Gate;
    GateRaises(s.deviceGens, o.device, o.deviceGeneration);
    GateRaises(s.workloadGens, o.workload, o.workloadGeneration);
    GateRaises(s.evidenceGens, o.evidence, o.evidenceGeneration);
  }

  /** Acceptance sets the current generation of every valid identity it names, and no other. */
  lemma AcceptedGenerations(s: State, historical: bool, o: Observation, k: Domain)
    requires Ingest(s, historical, o).status == Ok
    ensures Gens(Ingest(s, historical, o).state, k) ==
      if Subject(o, k) == 0 then Gens(s, k) else Gens(s, k)[Subject(o, k) := Generation(o, k)]
    ensures Subject(o, k) in Gens(s, k) && Subject(o, k) != 0 ==> Gens(s, k)[Subject(o, k)] <= Generation(o, k)
  {
    hide Authorize;
    hide GateGenerations;
    hide Commit;
    AuthorizeFrame(s, historical, o);
    var a := Authorize(KnowSource(s, o), historical, o);
    GatesSet(a.state, o, k);
    GateFrame(a.state, o);
    CommitFrame(GateGenerations(a.state, o).state, o);
  }

  lemma GatesSet(s: State, o: Observation, k: Domain)
    requires GateGenerations(s, o).status == Ok
    ensures Gens(GateGenerations(s, o).state, k) ==
      if Subject(o, k) == 0 then Gens(s, k) else Gens(s, k)[Subject(o, k) := Generation(o, k)]
    ensures Subject(o, k) in Gens(s, k) && Subject(o, k) != 0 ==> Gens(s, k)[Subject(o, k)] <= Generation(o, k)
  {
  }

  /** When no generation goes back, all three gates open. */
  lemma GatesOpen(s: State, o: Observation)
    requires forall k: Domain :: Subject(o, k) in Gens(s, k) && Subject(o, k) != 0 ==>
      Gens(s, k)[Subject(o, k)] <= Generation(o, k)
    ensures GateGenerations(s, o).status == Ok
  {
    assert o.device in s.deviceGens && o.device != 0 ==>
      Gens(s, DeviceDomain)[Subject(o, DeviceDomain)] <= Generation(o, DeviceDomain);
    assert o.workload in s.workloadGens && o.workload != 0 ==>
      Gens(s, WorkloadDomain)[Subject(o, WorkloadDomain)] <= Generation(o, WorkloadDomain);
    assert o.evidence in s.evidenceGens && o.evidence != 0 ==>
      Gens(s, EvidenceDomain)[Subject(o, EvidenceDomain)] <= Generation(o, EvidenceDomain);
  }

  lemma AppendOrdered(log: seq<Observation>, o: Observation, before: map<Id, u64>, after: map<Id, u64>, k: Domain)
    requires Ordered(log, k) && Bounded(log, before, k) && NeverLower(before, after)
    requires Subject(o, k) != 0 ==> Subject(o, k) in after && after[Subject(o, k)] == Generation(o, k)
    ensures Ordered(log + [o], k) && Bounded(log + [o], after, k)
  {
  }

  lemma StillBounded(log: seq<Observation>, before: map<Id, u64>, after: map<Id, u64>, k: Domain)
    requires Bounded(log, before, k) && NeverLower(before, after)
    ensures Bounded(log, after, k)
  {
  }

  lemma IngestGenerational(s: State, historical: bool, o: Observation, log: seq<Observation>)
    requires Generational(s, log)
    ensures var r := Ingest(s, historical, o); Generational(r.state, if r.status == Ok then log + [o] else log)
  {
    hide Ingest;
    hide Gens;
    var r := Ingest(s, historical, o);
    var log' := if r.status == Ok then log + [o] else log;
    forall k: Domain
      ensures Ordered(log', k) && Bounded(log', Gens(r.state, k), k)
    {
      IngestRaises(s, historical, o, k);
      if r.status == Ok {
        AppendOrdered(log, o, Gens(s, k), Gens(r.state, k), k);
      } else {
        StillBounded(log, Gens(s, k), Gens(r.state, k), k);
      }
    }
  }

  lemma {:induction false} ReplayGenerational(s: State, obs: seq<Observation>, n: nat)
    requires n <= |obs| && Generational(s, [])
    ensures Generational(Replay(s, obs, n).state, obs[..ReplayedCount(s, obs, n)])
  {
    hide Ingest;
    hide Generational;
    if n > 0 {
      ReplayGenerational(s, obs, n - 1);
      var r := Replay(s, obs, n - 1);
      if r.status == Ok {
        IngestGenerational(r.state, true, obs[n - 1], obs[..n - 1]);
        assert obs[..n] == obs[..n - 1] + [obs[n - 1]];
      }
    } else {
      assert obs[..0] == [];
    }
  }

  lemma StepGenerational(s: State, op: Op, log: seq<Observation>)
    requires Generational(s, log)
    ensures Generational(Step(s, op).state, LogAfter(s, log, op))
  {
    hide Ingest;
    hide FileFormat.Parse;
    match op {
      case IngestOp(o) => IngestGenerational(s, false, o, log);
      case LoadOp(file) =>
        var parsed := FileFormat.Parse(file);
        if parsed.Some? {
          ReplayGenerational(Cleared(s), parsed.value, |parsed.value|);
          SameGenerations(Replay(Cleared(s), parsed.value, |parsed.value|).state);
        }
      case _ => LifecycleKeepsGenerations(s, op);
    }
  }

  lemma LifecycleKeepsGenerations(s: State, op: Op)
    requires !op.IngestOp? && !op.LoadOp?
    ensures forall k: Domain :: Gens(Step(s, op).state, k) == Gens(s, k)
  {
  }

  lemma NothingGenerational(s: State)
    ensures Generational(s, [])
  {
  }

  lemma SameGenerations(s: State)
    ensures forall k: Domain :: Gens(DisconnectAll(s), k) == Gens(s, k)
  {
  }

  /**
   In every reachable state, also after a load that stopped half-way, the accepted log is
   non-decreasing in generation per valid identity and bounded by the map.
   */
  lemma {:induction false} RunGenerational(limits: Limits, epoch: u64, generation: u64, ops: seq<Op>, i: nat)
    requires i <= |ops|
    ensures var s0 := Init(limits, epoch, generation); Generational(StateAt(s0, ops, i), LogAt(s0, ops, i))
  {
    hide Generational;
    hide Step;
    hide LogAfter;
    var s0 := Init(limits, epoch, generation);
    NothingGenerational(s0);
    if i > 0 {
      RunGenerational(limits, epoch, generation, ops, i - 1);
      StepGenerational(StateAt(s0, ops, i - 1), ops[i - 1], LogAt(s0, ops, i - 1));
    }
  }

  lemma SuffixGenerational(log: seq<Observation>, d: nat, gens: map<Id, u64>, k: Domain)
    requires d <= |log| && Ordered(log, k) && Bounded(log, gens, k)
    ensures Ordered(log[d..], k) && Bounded(log[d..], gens, k)
  {
    hide Subject;
    hide Generation;
    assert forall i :: 0 <= i < |log[d..]| ==> log[d..][i] == log[d + i];
  }

  /** The history, a suffix of the log, inherits both. */
  lemma HistoryGenerational(s: State, log: seq<Observation>)
    requires |s.history| <= |log| && s.history == log[|log| - |s.history|..] && Generational(s, log)
    ensures Generational(s, s.history)
  {
    hide Ordered;
    hide Bounded;
    hide Gens;
    forall k: Domain
      ensures Ordered(s.history, k) && Bounded(s.history, Gens(s, k), k)
    {
      SuffixGenerational(log, |log| - |s.history|, Gens(s, k), k);
    }
  }

  /** Without a load no map entry disappears or goes down, over any stretch of a run. */
  lemma {:induction false} MapsNeverDecrease(s0: State, ops: seq<Op>, i: nat, j: nat, k: Domain)
    requires i <= j <= |ops|
    requires forall m :: i <= m < j ==> !ops[m].LoadOp?
    ensures NeverLower(Gens(StateAt(s0, ops, i), k), Gens(StateAt(s0, ops, j), k))
    decreases j
  {
    hide Ingest;
    if i < j {
      MapsNeverDecrease(s0, ops, i, j - 1, k);
      var s, op := StateAt(s0, ops, j - 1), ops[j - 1];
      if op.IngestOp? {
        IngestRaises(s, false, op.o, k);
      } else {
        LifecycleKeepsGenerations(s, op);
      }
    }
  }
}
