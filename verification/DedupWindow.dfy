/** The bounded dedup set and queue are a sliding window over the remembered observation ids. */
module DedupWindow {
  import opened Words
  import opened Observations
  import opened Engine
  import opened Machine
  import opened Reachability
  import FileFormat

  /** A capacity of zero still keeps one id. */
  function EffectiveCapacity(limits: Limits): (m: nat)
    ensures m >= 1
  {
    if limits.dedupCapacity == 0 then 1 else limits.dedupCapacity
  }

  function Last<T>(s: seq<T>, m: nat): (r: seq<T>)
    ensures |r| == (if |s| <= m then |s| else m)
  {
    if |s| <= m then s else s[|s| - m..]
  }

  ghost predicate NoRepeats<T(!new)>(s: seq<T>) {
    forall i, j :: 0 <= i < j < |s| ==> s[i] != s[j]
  }

  predicate Remembers(status: Status) {
    status == Ok || status == InvalidInput
  }

  /** The ids a replay put into the window. */
  function ReplayRemembered(s: State, obs: seq<Observation>, n: nat): seq<Id>
    requires n <= |obs|
  {
    if n == 0 then [] else
    var ids, r := ReplayRemembered(s, obs, n - 1), Replay(s, obs, n - 1);
    if r.status == Ok && Remembers(Ingest(r.state, true, obs[n - 1]).status) then ids + [obs[n - 1].id] else ids
  }

  function RememberedAfter(s: State, ids: seq<Id>, op: Op): seq<Id> {
    match op
    case IngestOp(o) => if Remembers(Ingest(s, false, o).status) then ids + [o.id] else ids
    case LoadOp(file) =>
      var parsed := FileFormat.Parse(file);
      if parsed.None? then ids else ReplayRemembered(Cleared(s), parsed.value, |parsed.value|)
    case _ => ids
  }

  /** Every id put into the window before step i, oldest first; an effective load starts over. */
  function RememberedAt(s0: State, ops: seq<Op>, i: nat): seq<Id>
    requires i <= |ops|
  {
    if i == 0 then [] else RememberedAfter(StateAt(s0, ops, i - 1), RememberedAt(s0, ops, i - 1), ops[i - 1])
  }

  /** Queue and set both hold exactly the last max(1, capacity) remembered ids, which are distinct. */
  ghost predicate Window(s: State, ids: seq<Id>) {
    s.dedupOrder == Last(ids, EffectiveCapacity(s.limits)) && Alike(s.dedup, s.dedupOrder)
  }

  lemma SlideLast(ids: seq<Id>, id: Id, m: nat)
    requires m >= 1
    ensures Last(ids + [id], m) == (if |ids| >= m then Last(ids, m)[1..] else Last(ids, m)) + [id]
  {
  }

  lemma RememberSlides(s: State, ids: seq<Id>, id: Id)
    requires Window(s, ids) && id !in s.dedup
    ensures Window(Remember(s, id), ids + [id])
  {
    hide Last;
    SlideLast(ids, id, EffectiveCapacity(s.limits));
    if |s.dedup| >= s.limits.dedupCapacity && s.dedupOrder != [] {
      DropOldest(s.dedup, s.dedupOrder);
      AddNewest(s.dedup - {s.dedupOrder[0]}, s.dedupOrder[1..], id);
    } else {
      AddNewest(s.dedup, s.dedupOrder, id);
    }
  }

  /** The set and the queue have the same distinct members. */
  ghost predicate Alike(seen: set<Id>, order: seq<Id>) {
    NoRepeats(order) && (forall id :: id in seen <==> id in order) && |seen| == |order|
  }

  lemma DropOldest(seen: set<Id>, order: seq<Id>)
    requires order != [] && Alike(seen, order)
    ensures Alike(seen - {order[0]}, order[1..])
  {
    assert order == [order[0]] + order[1..];
  }

  lemma AddNewest(seen: set<Id>, order: seq<Id>, id: Id)
    requires Alike(seen, order) && id !in seen
    ensures Alike(seen + {id}, order + [id])
  {
  }

  lemma IngestWindow(s: State, historical: bool, o: Observation, ids: seq<Id>)
    requires Window(s, ids)
    ensures var r := Ingest(s, historical, o);
      Window(r.state, if Remembers(r.status) then ids + [o.id] else ids)
  {
    hide Ingest;
    IngestFrame(s, historical, o);
    IngestRemembers(s, historical, o);
    var r := Ingest(s, historical, o);
    if Remembers(r.status) {
      RememberSlides(s, ids, o.id);
      SameWindow(Remember(s, o.id), r.state, ids + [o.id]);
    } else {
      SameWindow(s, r.state, ids);
    }
  }

  lemma SameWindow(s: State, t: State, ids: seq<Id>)
    requires Window(s, ids) && t.limits == s.limits && t.dedup == s.dedup && t.dedupOrder == s.dedupOrder
    ensures Window(t, ids)
  {
  }

  lemma {:induction false} ReplayWindow(s: State, obs: seq<Observation>, n: nat)
    requires n <= |obs| && Window(s, [])
    ensures Window(Replay(s, obs, n).state, ReplayRemembered(s, obs, n))
  {
    hide Ingest;
    hide Window;
    if n > 0 {
      ReplayWindow(s, obs, n - 1);
      var r := Replay(s, obs, n - 1);
      if r.status == Ok {
        IngestWindow(r.state, true, obs[n - 1], ReplayRemembered(s, obs, n - 1));
      }
    }
  }

  lemma StepWindow(s: State, op: Op, ids: seq<Id>)
    requires Window(s, ids)
    ensures Window(Step(s, op).state, RememberedAfter(s, ids, op))
  {
    hide Ingest;
    hide FileFormat.Parse;
    match op {
      case IngestOp(o) => IngestWindow(s, false, o, ids);
      case LoadOp(file) =>
        var parsed := FileFormat.Parse(file);
        if parsed.Some? {
          ReplayWindow(Cleared(s), parsed.value, |parsed.value|);
          var t := Replay(Cleared(s), parsed.value, |parsed.value|).state;
          SameWindow(t, DisconnectAll(t), ReplayRemembered(Cleared(s), parsed.value, |parsed.value|));
        }
      case _ => SameWindow(s, Step(s, op).state, ids);
    }
  }

  /** In every reachable state the window is exactly the last max(1, capacity) remembered ids. */
  lemma {:induction false} RunWindow(limits: Limits, epoch: u64, generation: u64, ops: seq<Op>, i: nat)
    requires i <= |ops|
    ensures var s0 := Init(limits, epoch, generation); Window(StateAt(s0, ops, i), RememberedAt(s0, ops, i))
    ensures var s := StateAt(Init(limits, epoch, generation), ops, i); s.limits == limits && s.generation == generation
  {
    hide Step;
    hide RememberedAfter;
    var s0 := Init(limits, epoch, generation);
    if i > 0 {
      RunWindow(limits, epoch, generation, ops, i - 1);
      StepWindow(StateAt(s0, ops, i - 1), ops[i - 1], RememberedAt(s0, ops, i - 1));
      StepKeepsLimits(StateAt(s0, ops, i - 1), ops[i - 1]);
    }
  }

  lemma {:induction false} ReplayKeepsLimits(s: State, obs: seq<Observation>, n: nat)
    requires n <= |obs|
    ensures var t := Replay(s, obs, n).state;
      t.limits == s.limits && t.epoch == s.epoch && t.generation == s.generation
  {
    hide Ingest;
    if n > 0 {
      ReplayKeepsLimits(s, obs, n - 1);
      IngestFrame(Replay(s, obs, n - 1).state, true, obs[n - 1]);
    }
  }

  lemma StepKeepsLimits(s: State, op: Op)
    ensures Step(s, op).state.limits == s.limits && Step(s, op).state.generation == s.generation
    ensures Step(s, op).state.epoch == if op.AdvanceEpochOp? then WrapAdd(s.epoch, 1) else s.epoch
  {
    hide Ingest;
    hide FileFormat.Parse;
    match op {
      case IngestOp(o) => IngestFrame(s, false, o);
      case LoadOp(file) =>
        var parsed := FileFormat.Parse(file);
        if parsed.Some? {
          ReplayKeepsLimits(Cleared(s), parsed.value, |parsed.value|);
        }
      case _ =>
    }
  }

  /** Without a load the remembered ids only grow. */
  lemma {:induction false} RememberedGrows(s0: State, ops: seq<Op>, i: nat, j: nat)
    requires i <= j <= |ops| && forall m :: i <= m < j ==> !ops[m].LoadOp?
    ensures RememberedAt(s0, ops, i) <= RememberedAt(s0, ops, j)
    decreases j
  {
    hide Step;
    hide RememberedAfter;
    if i < j {
      RememberedGrows(s0, ops, i, j - 1);
      RememberedExtends(StateAt(s0, ops, j - 1), RememberedAt(s0, ops, j - 1), ops[j - 1]);
    }
  }

  lemma RememberedExtends(s: State, ids: seq<Id>, op: Op)
    requires !op.LoadOp?
    ensures ids <= RememberedAfter(s, ids, op)
  {
    hide Ingest;
  }

  /**
   Two accepted observations with one id lie far apart: the ids remembered between them end in
   max(1, capacity) pairwise distinct ones, all different from the repeated id.
   */
  lemma EqualIdsAreFarApart(limits: Limits, epoch: u64, generation: u64, ops: seq<Op>, i: nat, j: nat)
    requires i < j < |ops| && forall m :: i <= m < j ==> !ops[m].LoadOp?
    requires var s0 := Init(limits, epoch, generation); AcceptedAt(s0, ops, i) && AcceptedAt(s0, ops, j)
    requires ops[i].o.id == ops[j].o.id
    ensures var s0, m := Init(limits, epoch, generation), EffectiveCapacity(limits);
      var early, late := RememberedAt(s0, ops, i + 1), RememberedAt(s0, ops, j);
      && early <= late && |late| - |early| >= m
      && NoRepeats(Last(late, m)) && ops[j].o.id !in Last(late, m)
  {
    hide RememberedAt;
    hide StateAt;
    hide Step;
    hide Last;
    hide Window;
    hide NoRepeats;
    var s0 := Init(limits, epoch, generation);
    var early, late := RememberedAt(s0, ops, i + 1), RememberedAt(s0, ops, j);
    RememberedGrows(s0, ops, i + 1, j);
    AcceptedIsRemembered(s0, ops, i);
    RunWindow(limits, epoch, generation, ops, j);
    AcceptedIsNew(s0, ops, j);
    NotInWindow(StateAt(s0, ops, j), late, ops[j].o.id);
    if |early| - 1 >= |late| - EffectiveCapacity(limits) {
      InsideLast(late, |early| - 1, EffectiveCapacity(limits));
    }
    WindowDistinct(StateAt(s0, ops, j), late);
  }

  lemma WindowDistinct(s: State, ids: seq<Id>)
    requires Window(s, ids)
    ensures NoRepeats(Last(ids, EffectiveCapacity(s.limits)))
  {
    hide Last;
  }

  lemma NotInWindow(s: State, ids: seq<Id>, id: Id)
    requires Window(s, ids) && id !in s.dedup
    ensures id !in Last(ids, EffectiveCapacity(s.limits))
  {
  }

  lemma AcceptedIsRemembered(s0: State, ops: seq<Op>, i: nat)
    requires i < |ops| && AcceptedAt(s0, ops, i)
    ensures var ids := RememberedAt(s0, ops, i + 1); ids != [] && ids[|ids| - 1] == ops[i].o.id
  {
    hide Ingest;
  }

  lemma AcceptedIsNew(s0: State, ops: seq<Op>, i: nat)
    requires i < |ops| && AcceptedAt(s0, ops, i)
    ensures ops[i].o.id !in StateAt(s0, ops, i).dedup
  {
    hide Ingest;
    hide StateAt;
    IngestRemembers(StateAt(s0, ops, i), false, ops[i].o);
  }

  lemma InsideLast(ids: seq<Id>, p: nat, m: nat)
    requires |ids| - m <= p < |ids|
    ensures ids[p] in Last(ids, m)
  {
    var d := |ids| - |Last(ids, m)|;
    assert Last(ids, m)[p - d] == ids[p];
  }
}
