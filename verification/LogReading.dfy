/** The declarative reading of the accepted log: which begin an end closes, and what that makes of a device. */
module LogReading {
  import opened Words
  import opened Intervals
  import opened Observations
  import opened Engine
  import opened Reachability

  // ----- begin and end, read off the log -----

  /** The seven types of interval: what begins one, and what ends it. */
  predicate Couple(begin: u8, end: u8) {
    || (begin == EXECUTION_BEGIN && end == EXECUTION_END)
    || (begin == TRANSFER_BEGIN && end == TRANSFER_END)
    || (begin == RESERVATION_BEGIN && end == RESERVATION_END)
    || (begin == RESIDENCY_BEGIN && end == RESIDENCY_END)
    || (begin == WAIT_BEGIN && end == WAIT_END)
    || (begin == RECOVERY_BEGIN && end == RECOVERY_END)
    || (begin == ATTEMPT_BEGIN && end == ATTEMPT_END)
  }

  /** The two observations are about the same thing: every identity an interval is matched by agrees. */
  predicate SameSubject(a: Observation, b: Observation) {
    && a.source == b.source && a.device == b.device && a.workload == b.workload && a.attempt == b.attempt
    && a.reservation == b.reservation && a.residency == b.residency && a.transfer == b.transfer
    && a.recovery == b.recovery && a.allocation == b.allocation
  }

  /**
   The end at j closes the begin at i: they are a couple about the same thing on a valid device, and
   nothing between them begins or ends the same.
   */
  ghost predicate Pair(log: seq<Observation>, i: int, j: int) {
    && 0 <= i < j < |log| && log[j].device != 0
    && Couple(log[i].kind, log[j].kind) && SameSubject(log[i], log[j])
    && forall k :: i < k < j && SameSubject(log[k], log[j]) ==>
         log[k].kind != log[i].kind && log[k].kind != log[j].kind
  }

  /** From the begin to the later tick of the end, or empty at the begin when that lies before it. */
  function PairSpan(b: Observation, e: Observation): Interval {
    Interval(b.begin, Max(b.begin, Max(e.begin, e.end)))
  }

  /** The end's category; an end that leaves it unknown takes the state of the begin. */
  function PairCategory(b: Observation, e: Observation): u8 {
    var category := DefaultCategory(e.kind, e.classification, e.state);
    if category != UNKNOWN_CATEGORY then category else b.state
  }

  /** The event a begin and its end make: everything but span and category is the begin's. */
  function PairEvent(b: Observation, e: Observation): EventSpan {
    EventSpan(
      span := PairSpan(b, e), category := PairCategory(b, e),
      source := b.source, sourceGeneration := b.sourceGeneration,
      workload := b.workload, workloadGeneration := b.workloadGeneration, deviceGeneration := b.deviceGeneration,
      provenance := b.provenance, observation := b.id, ratio := b.ratio, bytes := b.bytes)
  }

  // ----- the machine's interval keys -----

  /**
   Two observations have one key if and only if they are about the same thing and are of one type,
   or are the begin and the end of a couple.
   */
  lemma KeysAgree(a: Observation, b: Observation)
    ensures KeyOf(a) == KeyOf(b) <==>
      SameSubject(a, b) && (a.kind == b.kind || Couple(a.kind, b.kind) || Couple(b.kind, a.kind))
  {
    assert PairKind(a.kind) == PairKind(b.kind) <==>
      a.kind == b.kind || Couple(a.kind, b.kind) || Couple(b.kind, a.kind);
  }

  /** Only begins are the first and only ends the second of a couple, and each has one partner. */
  lemma CouplesMatch(begin: u8, end: u8)
    ensures Couple(begin, end) <==> IsBegin(begin) && IsEnd(end) && PairKind(end) == begin
    ensures IsBegin(begin) && IsBegin(end) ==> (PairKind(begin) == PairKind(end) <==> begin == end)
  {
  }

  predicate TouchesKey(o: Observation, key: IntervalKey) {
    o.device != 0 && (IsBegin(o.kind) || IsEnd(o.kind)) && KeyOf(o) == key
  }

  /** Before position n, the begin at i is the last begin or end of its key. */
  ghost predicate PendingAt(log: seq<Observation>, n: nat, key: IntervalKey, i: int)
    requires n <= |log|
  {
    && 0 <= i < n && IsBegin(log[i].kind) && TouchesKey(log[i], key)
    && forall k :: i < k < n ==> !TouchesKey(log[k], key)
  }

  /** What the machine looks for at an end is the begin of its pair. */
  lemma PendingIsPair(log: seq<Observation>, i: int, j: int)
    requires 0 <= j < |log|
    ensures IsEnd(log[j].kind) && log[j].device != 0 && PendingAt(log, j, KeyOf(log[j]), i) <==> Pair(log, i, j)
  {
    if 0 <= i < j && log[j].device != 0 {
      CouplesMatch(log[i].kind, log[j].kind);
      KeysAgree(log[i], log[j]);
      forall k | i < k < j && IsEnd(log[j].kind)
        ensures TouchesKey(log[k], KeyOf(log[j])) <==>
          SameSubject(log[k], log[j]) && (log[k].kind == PairKind(log[j].kind) || log[k].kind == log[j].kind)
      {
        TouchesCouple(log[k], log[j]);
      }
      hide KeyOf;
      hide IsBegin;
      hide IsEnd;
      hide Couple;
      hide PairKind;
      hide SameSubject;
    }
  }

  lemma TouchesCouple(o: Observation, e: Observation)
    requires IsEnd(e.kind) && e.device != 0
    ensures TouchesKey(o, KeyOf(e)) <==> SameSubject(o, e) && (o.kind == PairKind(e.kind) || o.kind == e.kind)
  {
    KeysAgree(o, e);
    CouplesMatch(o.kind, e.kind);
    CouplesMatch(e.kind, o.kind);
    CouplesMatch(PairKind(e.kind), e.kind);
  }

  // ----- the same, step by step -----

  /** The position of the pending begin of `key` before position n. */
  function OpenIndex(log: seq<Observation>, n: nat, key: IntervalKey): (r: Option<nat>)
    requires n <= |log|
    ensures r.Some? ==> r.value < n
  {
    if n == 0 then None
    else if TouchesKey(log[n - 1], key) then (if IsBegin(log[n - 1].kind) then Some(n - 1) else None)
    else OpenIndex(log, n - 1, key)
  }

  lemma {:induction false} OpenIndexIsPending(log: seq<Observation>, n: nat, key: IntervalKey, i: nat)
    requires n <= |log|
    ensures OpenIndex(log, n, key) == Some(i) <==> PendingAt(log, n, key, i)
  {
    hide TouchesKey;
    hide IsBegin;
    if n > 0 {
      OpenIndexIsPending(log, n - 1, key, i);
    }
  }

  /** The begin that position j closes, if it closes one. */
  function Closes(log: seq<Observation>, j: nat): (r: Option<nat>)
    requires j < |log|
    ensures r.Some? ==> r.value < j
  {
    if log[j].device != 0 && IsEnd(log[j].kind) then OpenIndex(log, j, KeyOf(log[j])) else None
  }

  lemma ClosesIsPair(log: seq<Observation>, i: nat, j: nat)
    requires j < |log|
    ensures Closes(log, j) == Some(i) <==> Pair(log, i, j)
  {
    hide IsEnd;
    hide KeyOf;
    hide PendingAt;
    hide Pair;
    OpenIndexIsPending(log, j, KeyOf(log[j]), i);
    PendingIsPair(log, i, j);
  }

  /** The closed intervals of device d, in closing order. */
  function EventsOf(log: seq<Observation>, n: nat, d: Id): seq<EventSpan>
    requires n <= |log|
  {
    if n == 0 then [] else
    var before, c := EventsOf(log, n - 1, d), Closes(log, n - 1);
    if log[n - 1].device == d && c.Some? then before + [Close(OpenOf(log[c.value]), log[n - 1])] else before
  }

  // ----- the machine refines the reading -----

  /** Open entries are the pending begins of the device, and events its closed pairs. */
  ghost predicate Reads(d: Device, id: Id, log: seq<Observation>, n: nat)
    requires n <= |log|
  {
    && d.events == EventsOf(log, n, id)
    && (forall key :: key in d.open <==> key.device == id && OpenIndex(log, n, key).Some?)
    && (forall key :: key in d.open ==> d.open[key] == OpenOf(log[OpenIndex(log, n, key).value]))
  }

  /** An accumulator that does not exist reads like one without events or open entries. */
  ghost predicate AllRead(devices: map<Id, Device>, log: seq<Observation>, n: nat)
    requires n <= |log|
  {
    && 0 !in devices
    && (forall id :: id in devices ==> Reads(devices[id], id, log, n))
    && (forall id :: id !in devices ==> EventsOf(log, n, id) == [])
    && (forall key: IntervalKey :: key.device !in devices ==> OpenIndex(log, n, key).None?)
  }

  lemma TouchKeepsIntervals(devices: map<Id, Device>, o: Observation)
    ensures var d := Touch(devices, o);
      && d.events == (if o.device in devices then devices[o.device].events else [])
      && d.open == (if o.device in devices then devices[o.device].open else map[])
  {
  }

  /** Only begins and ends move open entries and events. */
  lemma BookIntervals(d: Device, o: Observation)
    ensures var b := Book(d, o);
      && b.open == (if IsBegin(o.kind) then d.open[KeyOf(o) := OpenOf(o)]
                    else if IsEnd(o.kind) then d.open - {KeyOf(o)} else d.open)
      && b.events == (if IsEnd(o.kind) && KeyOf(o) in d.open
                      then d.events + [Close(d.open[KeyOf(o)], o)] else d.events)
  {
    CategoryRules(o.kind, 0, 0);
    hide IsBegin;
    hide IsEnd;
    hide KeyOf;
    hide Close;
    hide OpenOf;
    if IsEnd(o.kind) && KeyOf(o) !in d.open {
      assert d.open - {KeyOf(o)} == d.open;
    }
  }

  /** What position n does to the pending begins. */
  lemma OpenIndexStep(log: seq<Observation>, n: nat, key: IntervalKey)
    requires n < |log|
    ensures OpenIndex(log, n + 1, key) ==
      if !TouchesKey(log[n], key) then OpenIndex(log, n, key)
      else if IsBegin(log[n].kind) then Some(n) else None
    ensures TouchesKey(log[n], key) ==> key.device == log[n].device != 0
  {
  }

  lemma DeviceOpenReads(d: Device, log: seq<Observation>, n: nat, b: Device)
    requires n < |log| && Reads(d, log[n].device, log, n) && log[n].device != 0
    requires b == Book(d, log[n])
    ensures forall key :: key in b.open <==> key.device == log[n].device && OpenIndex(log, n + 1, key).Some?
    ensures forall key :: key in b.open ==> b.open[key] == OpenOf(log[OpenIndex(log, n + 1, key).value])
  {
    var o := log[n];
    CategoryRules(o.kind, 0, 0);
    BookIntervals(d, o);
    assert KeyOf(o).device == o.device;
    hide Book;
    hide OpenIndex;
    hide OpenOf;
    hide KeyOf;
    hide IsBegin;
    hide IsEnd;
    hide EventsOf;
    forall key
      ensures key in b.open <==> key.device == o.device && OpenIndex(log, n + 1, key).Some?
      ensures key in b.open ==> b.open[key] == OpenOf(log[OpenIndex(log, n + 1, key).value])
    {
      OpenIndexStep(log, n, key);
    }
  }

  lemma DeviceEventsRead(d: Device, log: seq<Observation>, n: nat, b: Device)
    requires n < |log| && Reads(d, log[n].device, log, n) && log[n].device != 0
    requires b == Book(d, log[n])
    ensures b.events == EventsOf(log, n + 1, log[n].device)
  {
    var o := log[n];
    BookIntervals(d, o);
    assert KeyOf(o).device == o.device;
    hide Book;
    hide OpenIndex;
    hide OpenOf;
    hide Close;
    hide KeyOf;
    hide IsBegin;
    hide IsEnd;
  }

  /** A fresh accumulator reads like an absent one. */
  lemma TouchReads(devices: map<Id, Device>, log: seq<Observation>, n: nat, o: Observation)
    requires n <= |log| && AllRead(devices, log, n)
    ensures Reads(Touch(devices, o), o.device, log, n)
  {
    TouchKeepsIntervals(devices, o);
    hide Touch;
    hide OpenIndex;
    hide EventsOf;
    hide OpenOf;
  }

  lemma AccumulateReads(devices: map<Id, Device>, log: seq<Observation>, n: nat)
    requires n < |log| && AllRead(devices, log, n)
    ensures AllRead(Accumulate(devices, log[n]), log, n + 1)
  {
    hide AllRead;
    hide Touch;
    hide Book;
    hide Reads;
    var o := log[n];
    OthersRead(devices, log, n);
    if o.device != 0 {
      TouchReads(devices, log, n, o);
      var d, b := Touch(devices, o), Book(Touch(devices, o), o);
      BookReads(d, log, n, b);
      InstallReads(devices, log, n, b);
    } else {
      NothingInstalled(devices, log, n);
    }
  }

  lemma BookReads(d: Device, log: seq<Observation>, n: nat, b: Device)
    requires n < |log| && Reads(d, log[n].device, log, n) && log[n].device != 0
    requires b == Book(d, log[n])
    ensures Reads(b, log[n].device, log, n + 1)
  {
    DeviceOpenReads(d, log, n, b);
    DeviceEventsRead(d, log, n, b);
    hide Book;
    hide OpenIndex;
    hide EventsOf;
    hide OpenOf;
  }

  /** What position n leaves alone: every other device, and every key of one. */
  ghost predicate OthersReadNext(devices: map<Id, Device>, log: seq<Observation>, n: nat)
    requires n < |log|
  {
    && (forall id :: id in devices && (id != log[n].device || log[n].device == 0) ==>
          Reads(devices[id], id, log, n + 1))
    && (forall id :: id !in devices && (id != log[n].device || log[n].device == 0) ==> EventsOf(log, n + 1, id) == [])
    && (forall key: IntervalKey :: key.device !in devices && (key.device != log[n].device || log[n].device == 0) ==>
          OpenIndex(log, n + 1, key).None?)
  }

  lemma OthersRead(devices: map<Id, Device>, log: seq<Observation>, n: nat)
    requires n < |log| && AllRead(devices, log, n)
    ensures OthersReadNext(devices, log, n)
  {
    hide Reads;
    hide OpenIndex;
    hide TouchesKey;
    hide Close;
    hide OpenOf;
    var o := log[n];
    forall id | id in devices && (id != o.device || o.device == 0)
      ensures Reads(devices[id], id, log, n + 1)
    {
      OtherDeviceReads(devices[id], id, log, n);
    }
    forall id | id !in devices && (id != o.device || o.device == 0)
      ensures EventsOf(log, n + 1, id) == []
    {
      assert EventsOf(log, n, id) == [];
    }
    forall key: IntervalKey | key.device !in devices && (key.device != o.device || o.device == 0)
      ensures OpenIndex(log, n + 1, key).None?
    {
      OpenIndexStep(log, n, key);
    }
  }

  lemma InstallReads(devices: map<Id, Device>, log: seq<Observation>, n: nat, b: Device)
    requires n < |log| && AllRead(devices, log, n) && log[n].device != 0
    requires OthersReadNext(devices, log, n) && Reads(b, log[n].device, log, n + 1)
    ensures AllRead(devices[log[n].device := b], log, n + 1)
  {
    hide Reads;
    hide OpenIndex;
    hide EventsOf;
  }

  lemma NothingInstalled(devices: map<Id, Device>, log: seq<Observation>, n: nat)
    requires n < |log| && AllRead(devices, log, n) && log[n].device == 0
    requires OthersReadNext(devices, log, n)
    ensures AllRead(devices, log, n + 1)
  {
    hide Reads;
    hide OpenIndex;
    hide EventsOf;
  }

  lemma OtherDeviceReads(d: Device, id: Id, log: seq<Observation>, n: nat)
    requires n < |log| && Reads(d, id, log, n) && (id != log[n].device || log[n].device == 0)
    ensures Reads(d, id, log, n + 1)
  {
    hide OpenOf;
    hide Close;
    hide OpenIndex;
    hide TouchesKey;
    forall key: IntervalKey | key.device == id
      ensures OpenIndex(log, n + 1, key) == OpenIndex(log, n, key)
    {
      OpenIndexStep(log, n, key);
    }
  }

  /** Folding the log gives exactly the accumulators the reading describes. */
  lemma {:induction false} FoldReads(log: seq<Observation>, n: nat)
    requires n <= |log|
    ensures AllRead(DevicesOf(log, n), log, n)
  {
    hide Accumulate;
    hide AllRead;
    if n > 0 {
      FoldReads(log, n - 1);
      AccumulateReads(DevicesOf(log, n - 1), log, n - 1);
    } else {
      NothingRead(log);
    }
  }

  lemma NothingRead(log: seq<Observation>)
    ensures AllRead(map[], log, 0)
  {
    hide TouchesKey;
  }

  // ----- events and pairs -----

  /** The pair (i, j) belongs to device d and makes the event e. */
  ghost predicate Makes(log: seq<Observation>, d: Id, e: EventSpan, i: int, j: int) {
    Pair(log, i, j) && log[j].device == d && e == PairEvent(log[i], log[j])
  }

  /** The machine's event is the declarative one, whatever the begin and the end. */
  lemma CloseIsPair(b: Observation, e: Observation)
    ensures Close(OpenOf(b), e) == PairEvent(b, e)
    ensures WellFormed(e) ==> PairSpan(b, e) == Interval(b.begin, Max(e.end, b.begin))
  {
  }

  lemma LastEvent(log: seq<Observation>, j: nat, d: Id, e: EventSpan)
    requires j < |log|
    ensures (exists i :: Makes(log, d, e, i, j)) <==>
      Closes(log, j).Some? && log[j].device == d && e == Close(OpenOf(log[Closes(log, j).value]), log[j])
  {
    hide Close;
    hide OpenOf;
    hide PairEvent;
    hide Pair;
    hide Closes;
    var c := Closes(log, j);
    if c.Some? {
      CloseIsPair(log[c.value], log[j]);
    }
    if c.Some? && log[j].device == d && e == Close(OpenOf(log[c.value]), log[j]) {
      ClosesIsPair(log, c.value, j);
      assert Makes(log, d, e, c.value, j);
    }
    forall i | Makes(log, d, e, i, j)
      ensures c == Some(i)
    {
      PairInside(log, i, j);
      ClosesIsPair(log, i, j);
    }
  }

  lemma PairInside(log: seq<Observation>, i: int, j: int)
    requires Pair(log, i, j)
    ensures 0 <= i < j < |log|
  {
  }

  /** Every event is a pair, and every pair is an event. */
  lemma {:induction false} EventsArePairs(log: seq<Observation>, n: nat, d: Id, e: EventSpan)
    requires n <= |log|
    ensures e in EventsOf(log, n, d) <==> exists i, j :: j < n && Makes(log, d, e, i, j)
  {
    hide Close;
    hide OpenOf;
    hide Closes;
    hide PairEvent;
    hide Couple;
    hide SameSubject;
    if n > 0 {
      hide Makes;
      EventsStep(log, n - 1, d, e);
      hide EventsOf;
      EventsArePairs(log, n - 1, d, e);
      LastEvent(log, n - 1, d, e);
    }
  }

  lemma EventsStep(log: seq<Observation>, n: nat, d: Id, e: EventSpan)
    requires n < |log|
    ensures e in EventsOf(log, n + 1, d) <==>
      || e in EventsOf(log, n, d)
      || (Closes(log, n).Some? && log[n].device == d && e == Close(OpenOf(log[Closes(log, n).value]), log[n]))
  {
    hide Close;
    hide OpenOf;
    hide Closes;
  }

  /** Position j closes an interval of device d. */
  predicate ClosesFor(log: seq<Observation>, j: nat, d: Id)
    requires j < |log|
  {
    log[j].device == d && Closes(log, j).Some?
  }

  /** The event position j makes. */
  function EventAt(log: seq<Observation>, j: nat): EventSpan
    requires j < |log| && Closes(log, j).Some?
  {
    PairEvent(log[Closes(log, j).value], log[j])
  }

  lemma EventsAppend(log: seq<Observation>, j: nat, d: Id)
    requires j < |log|
    ensures EventsOf(log, j + 1, d)
         == EventsOf(log, j, d) + (if ClosesFor(log, j, d) then [EventAt(log, j)] else [])
  {
    hide Closes;
    hide Close;
    hide OpenOf;
    hide PairEvent;
    if ClosesFor(log, j, d) {
      CloseIsPair(log[Closes(log, j).value], log[j]);
    }
  }
}
