/** Load and replay, and runs: sequences of atomic calls on one observatory. */
module Machine {
  import opened Words
  import opened Observations
  import opened Engine
  import FileFormat

  // ----- load -----

  /** What `load` clears; limits, running epoch and generation stay. */
  function Cleared(s: State): State {
    Init(s.limits, s.epoch, s.generation)
  }

  /** The first n observations ingested in historical mode, stopping at the first that is not accepted. */
  function Replay(s: State, obs: seq<Observation>, n: nat): Outcome
    requires n <= |obs|
  {
    if n == 0 then Outcome(s, Ok) else
    var r := Replay(s, obs, n - 1);
    if r.status != Ok then r else Ingest(r.state, true, obs[n - 1])
  }

  /** After a replay every source needs revalidation. */
  function DisconnectAll(s: State): State {
    s.(sources := map id | id in s.sources :: s.sources[id].(connected := false))
  }

  function LoadObservations(s: State, obs: seq<Observation>): Outcome {
    var r := Replay(Cleared(s), obs, |obs|);
    Outcome(DisconnectAll(r.state), r.status)
  }

  /** A file that does not parse leaves the observatory as it was. */
  function Load(s: State, file: seq<u8>): Outcome {
    var parsed := FileFormat.Parse(file);
    if parsed.None? then Outcome(s, PersistenceCorrupt) else LoadObservations(s, parsed.value)
  }

  function Save(s: State): seq<u8> {
    FileFormat.File(s.epoch, s.generation, s.history)
  }

  // ----- runs -----

  datatype Op =
    | IngestOp(o: Observation)
    | RegisterOp(id: Id, generation: u64, boot: u64, last: u64)
    | ConnectOp(id: Id, at: u64)
    | DisconnectOp(id: Id, at: u64)
    | AdvanceEpochOp
    | LoadOp(file: seq<u8>)

  function Step(s: State, op: Op): Outcome {
    match op
    case IngestOp(o) => Ingest(s, false, o)
    case RegisterOp(id, generation, boot, last) => Outcome(Register(s, id, generation, boot, last), Ok)
    case ConnectOp(id, at) => MarkConnected(s, id, at)
    case DisconnectOp(id, at) => MarkDisconnected(s, id, at)
    case AdvanceEpochOp => Outcome(AdvanceEpoch(s), Ok)
    case LoadOp(file) => Load(s, file)
  }

  /** The state before step i of a run. */
  function StateAt(s0: State, ops: seq<Op>, i: nat): State
    requires i <= |ops|
  {
    if i == 0 then s0 else Step(StateAt(s0, ops, i - 1), ops[i - 1]).state
  }

  /** What step i answers. */
  function StatusAt(s0: State, ops: seq<Op>, i: nat): Status
    requires i < |ops|
  {
    Step(StateAt(s0, ops, i), ops[i]).status
  }

  /** Step i ingested an observation and accepted it. */
  predicate AcceptedAt(s0: State, ops: seq<Op>, i: nat)
    requires i < |ops|
  {
    ops[i].IngestOp? && StatusAt(s0, ops, i) == Ok
  }

  /** How many observations a replay accepted. */
  function ReplayedCount(s: State, obs: seq<Observation>, n: nat): (k: nat)
    requires n <= |obs|
    ensures k <= n && Replay(s, obs, k).status == Ok
    ensures k < n ==> Replay(s, obs, k + 1).status != Ok
  {
    if Replay(s, obs, n).status == Ok then n else ReplayedCount(s, obs, n - 1)
  }

  /** The accepted observations a step leaves behind, given those before it; an effective load starts over. */
  function LogAfter(s: State, log: seq<Observation>, op: Op): seq<Observation> {
    match op
    case IngestOp(o) => if Ingest(s, false, o).status == Ok then log + [o] else log
    case LoadOp(file) =>
      var parsed := FileFormat.Parse(file);
      if parsed.None? then log
      else parsed.value[..ReplayedCount(Cleared(s), parsed.value, |parsed.value|)]
    case _ => log
  }

  /** Every observation accepted before step i and not wiped out by a load. */
  function LogAt(s0: State, ops: seq<Op>, i: nat): seq<Observation>
    requires i <= |ops|
  {
    if i == 0 then [] else LogAfter(StateAt(s0, ops, i - 1), LogAt(s0, ops, i - 1), ops[i - 1])
  }

  /** The outcome of a stopped replay is that of the first observation it did not accept. */
  lemma {:induction false} ReplayStops(s: State, obs: seq<Observation>, n: nat)
    requires n <= |obs|
    ensures var k := ReplayedCount(s, obs, n);
      if k == n then Replay(s, obs, n).status == Ok
      else Replay(s, obs, n) == Ingest(Replay(s, obs, k).state, true, obs[k])
  {
    hide Ingest;
    var k := ReplayedCount(s, obs, n);
    if k < n {
      if k < n - 1 {
        ReplayStops(s, obs, n - 1);
        assert Replay(s, obs, n - 1).status != Ok;
        CountShrinks(s, obs, n);
      }
    }
  }

  lemma CountShrinks(s: State, obs: seq<Observation>, n: nat)
    requires 0 < n <= |obs| && Replay(s, obs, n).status != Ok
    ensures ReplayedCount(s, obs, n) == ReplayedCount(s, obs, n - 1)
  {
  }
}
