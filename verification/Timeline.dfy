/** The merged timeline and the workload view: both walk every device, in whatever order the map yields them. */
module Timeline {
  import opened Words
  import opened Intervals
  import opened Sorting
  import opened Sweep
  import opened Observations
  import opened Engine
  import opened Windows
  import opened EndToEnd
  import WindowTheorems

  /** One iteration order of a map: every key exactly once. */
  ghost predicate Enumerates(order: seq<Id>, devices: map<Id, Device>) {
    && (forall id :: id in order <==> id in devices)
    && (forall i, j :: 0 <= i < j < |order| ==> order[i] != order[j])
  }

  /** Every map can be walked. */
  lemma {:induction false} EveryMapHasAnOrder(devices: map<Id, Device>)
    ensures exists order :: Enumerates(order, devices)
    decreases |devices|
  {
    if devices == map[] {
      assert Enumerates([], devices);
    } else {
      var id :| id in devices;
      var rest := devices - {id};
      assert devices.Keys == rest.Keys + {id};
      EveryMapHasAnOrder(rest);
      var order :| Enumerates(order, rest);
      assert Enumerates(order + [id], devices);
    }
  }

  lemma EnumerationsArePermutations(a: seq<Id>, b: seq<Id>, devices: map<Id, Device>)
    requires Enumerates(a, devices) && Enumerates(b, devices)
    ensures multiset(a) == multiset(b)
  {
    forall id
      ensures multiset(a)[id] == (if id in devices then 1 else 0) == multiset(b)[id]
    {
      CountOnce(a, id);
      CountOnce(b, id);
    }
  }

  lemma {:induction false} CountOnce(s: seq<Id>, id: Id)
    requires forall i, j :: 0 <= i < j < |s| ==> s[i] != s[j]
    ensures multiset(s)[id] == if id in s then 1 else 0
  {
    if |s| > 0 {
      var init := s[..|s| - 1];
      assert s == init + [s[|s| - 1]];
      CountOnce(init, id);
    }
  }

  // ----- the timeline -----

  datatype TimelineEvent = TimelineEvent(
    span: Interval, source: Id, sourceGeneration: u64, device: Id, deviceGeneration: u64, workload: Id,
    workloadGeneration: u64, state: u8, provenance: u8, observation: Id)

  /** An event is shown when it has a tick in the window or begins in it. */
  predicate Shown(e: EventSpan, win: Interval) {
    Intersect(e.span, win).Duration() != 0 || win.Contains(e.span.begin)
  }

  function Entry(d: Id, e: EventSpan): TimelineEvent {
    TimelineEvent(e.span, e.source, e.sourceGeneration, d, e.deviceGeneration, e.workload,
                  e.workloadGeneration, e.category, e.provenance, e.observation)
  }

  /** The shown events of one device, in closing order. */
  function DeviceEntries(d: Id, events: seq<EventSpan>, win: Interval): seq<TimelineEvent> {
    if |events| == 0 then [] else
    DeviceEntries(d, events[..|events| - 1], win)
    + (if Shown(events[|events| - 1], win) then [Entry(d, events[|events| - 1])] else [])
  }

  /** The shown events of the devices in `order`. */
  function Entries(devices: map<Id, Device>, order: seq<Id>, win: Interval): seq<TimelineEvent> {
    if |order| == 0 then [] else
    Entries(devices, order[..|order| - 1], win)
    + DeviceEntries(order[|order| - 1], EventsIn(devices, order[|order| - 1]), win)
  }

  predicate ComesBefore(a: TimelineEvent, b: TimelineEvent) {
    if a.span.begin != b.span.begin then a.span.begin < b.span.begin
    else if a.device != b.device then a.device < b.device
    else if a.source != b.source then a.source < b.source
    else a.observation < b.observation
  }

  /** `order` is the iteration order of the device map. */
  method ComputeTimeline(devices: map<Id, Device>, order: seq<Id>, win: Interval) returns (out: seq<TimelineEvent>)
    requires Enumerates(order, devices)
    ensures Sorts(ComesBefore, Entries(devices, order, win), out)
  {
    hide Shown;
    var all := [];
    for i := 0 to |order|
      invariant all == Entries(devices, order[..i], win)
    {
      var events := devices[order[i]].events;
      ghost var before := all;
      for j := 0 to |events|
        invariant all == before + DeviceEntries(order[i], events[..j], win)
      {
        assert events[..j + 1][..j] == events[..j];
        if Shown(events[j], win) {
          all := all + [Entry(order[i], events[j])];
        }
      }
      assert events[..|events|] == events;
      assert order[..i + 1][..i] == order[..i];
    }
    assert order[..|order|] == order;
    out := Sort(ComesBefore, all);
  }

  /** An entry is listed exactly when its device closed such an event and the window shows it. */
  lemma {:induction false} EntriesListShown(devices: map<Id, Device>, order: seq<Id>, win: Interval, te: TimelineEvent)
    ensures te in Entries(devices, order, win) <==>
      te.device in order && exists e :: e in EventsIn(devices, te.device) && Shown(e, win) && te == Entry(te.device, e)
    decreases |order|
  {
    hide Shown;
    hide EventsIn;
    if |order| > 0 {
      var n := |order| - 1;
      EntriesListShown(devices, order[..n], win, te);
      DeviceEntriesListShown(order[n], EventsIn(devices, order[n]), win, te);
      assert order == order[..n] + [order[n]];
    }
  }

  lemma {:induction false} DeviceEntriesListShown(d: Id, events: seq<EventSpan>, win: Interval, te: TimelineEvent)
    ensures te in DeviceEntries(d, events, win) <==>
      te.device == d && exists e :: e in events && Shown(e, win) && te == Entry(te.device, e)
    decreases |events|
  {
    hide Shown;
    if |events| > 0 {
      var n := |events| - 1;
      DeviceEntriesListShown(d, events[..n], win, te);
      assert events == events[..n] + [events[n]];
    }
  }

  lemma DeviceEntriesAppend(d: Id, events: seq<EventSpan>, e: EventSpan, win: Interval)
    ensures DeviceEntries(d, events + [e], win)
         == DeviceEntries(d, events, win) + (if Shown(e, win) then [Entry(d, e)] else [])
  {
    hide Shown;
    assert (events + [e])[..|events|] == events;
  }

  /** Every entry comes from the events of its own device, as often as that device lists it. */
  lemma {:induction false} EntryCount(devices: map<Id, Device>, order: seq<Id>, win: Interval, te: TimelineEvent)
    requires forall i, j :: 0 <= i < j < |order| ==> order[i] != order[j]
    ensures multiset(Entries(devices, order, win))[te] ==
      if te.device in order then multiset(DeviceEntries(te.device, EventsIn(devices, te.device), win))[te] else 0
    decreases |order|
  {
    hide DeviceEntries;
    hide EventsIn;
    hide Shown;
    if |order| > 0 {
      var n := |order| - 1;
      EntryCount(devices, order[..n], win, te);
      DeviceEntriesListShown(order[n], EventsIn(devices, order[n]), win, te);
      assert order == order[..n] + [order[n]];
    }
  }

  lemma EntryCountOf(devices: map<Id, Device>, order: seq<Id>, win: Interval, te: TimelineEvent)
    requires Enumerates(order, devices)
    ensures multiset(Entries(devices, order, win))[te] ==
      multiset(DeviceEntries(te.device, EventsIn(devices, te.device), win))[te]
  {
    hide Entries;
    hide Shown;
    EntryCount(devices, order, win, te);
  }

  lemma {:induction false} EntriesConcatenation(devices: map<Id, Device>, a: seq<Id>, b: seq<Id>, win: Interval)
    ensures Entries(devices, a + b, win) == Entries(devices, a, win) + Entries(devices, b, win)
    decreases |b|
  {
    hide DeviceEntries;
    hide EventsIn;
    if |b| == 0 {
      assert a + b == a;
    } else {
      assert (a + b)[..|a + b| - 1] == a + b[..|b| - 1];
      EntriesConcatenation(devices, a, b[..|b| - 1], win);
    }
  }

  lemma RemoveAt<T>(s: seq<T>, k: nat)
    requires k < |s|
    ensures s == s[..k] + [s[k]] + s[k + 1..]
    ensures multiset(s[..k] + s[k + 1..]) == multiset(s) - multiset{s[k]}
  {
    assert s == s[..k] + [s[k]] + s[k + 1..];
    assert multiset(s) == multiset(s[..k]) + multiset{s[k]} + multiset(s[k + 1..]);
  }

  /** Taking one device out of the order takes its entries out. */
  lemma EntriesRemoveAt(devices: map<Id, Device>, s: seq<Id>, k: nat, win: Interval)
    requires k < |s|
    ensures multiset(Entries(devices, s, win)) ==
      multiset(Entries(devices, s[..k] + s[k + 1..], win)) + multiset(Entries(devices, [s[k]], win))
  {
    hide Entries;
    RemoveAt(s, k);
    EntriesConcatenation(devices, s[..k], s[k + 1..], win);
    EntriesConcatenation(devices, s[..k], [s[k]], win);
    EntriesConcatenation(devices, s[..k] + [s[k]], s[k + 1..], win);
  }

  /** Permuting the iteration order permutes the entries. */
  lemma {:induction false} EntriesPermute(devices: map<Id, Device>, a: seq<Id>, b: seq<Id>, win: Interval)
    requires multiset(a) == multiset(b)
    ensures multiset(Entries(devices, a, win)) == multiset(Entries(devices, b, win))
    decreases |a|
  {
    hide Entries;
    assert |a| == |multiset(a)| == |multiset(b)| == |b|;
    if |a| > 0 {
      assert a[0] in multiset(b);
      var k :| 0 <= k < |b| && b[k] == a[0];
      RemoveAt(a, 0);
      RemoveAt(b, k);
      EntriesRemoveAt(devices, a, 0, win);
      EntriesRemoveAt(devices, b, k, win);
      EntriesPermute(devices, a[..0] + a[1..], b[..k] + b[k + 1..], win);
    } else {
      assert a == b;
    }
  }

  /** Begin, device, source and observation tell different entries apart. */
  ghost predicate ToldApart(entries: seq<TimelineEvent>) {
    forall p, q :: p in entries && q in entries && p != q ==>
      p.span.begin != q.span.begin || p.device != q.device || p.source != q.source || p.observation != q.observation
  }

  lemma ToldApartIsUnique(x: seq<TimelineEvent>, y: seq<TimelineEvent>)
    requires Sorted(ComesBefore, x) && Sorted(ComesBefore, y) && multiset(x) == multiset(y) && ToldApart(x)
    ensures x == y
  {
    SortedIsUnique(ComesBefore, x, y);
  }

  /** When the keys tell entries apart, the timeline does not depend on map order. */
  lemma TimelineIgnoresMapOrder(devices: map<Id, Device>, a: seq<Id>, b: seq<Id>, win: Interval,
                                x: seq<TimelineEvent>, y: seq<TimelineEvent>)
    requires Enumerates(a, devices) && Enumerates(b, devices)
    requires Sorts(ComesBefore, Entries(devices, a, win), x) && Sorts(ComesBefore, Entries(devices, b, win), y)
    requires ToldApart(x)
    ensures x == y
  {
    hide Entries;
    hide ToldApart;
    EnumerationsArePermutations(a, b, devices);
    EntriesPermute(devices, a, b, win);
    ToldApartIsUnique(x, y);
  }

  // ----- the workload view -----

  datatype WorkloadView = WorkloadView(
    activeExecution: Tick, usefulExecution: Tick, nonUsefulExecution: Tick, retryTime: Tick,
    transferTime: Tick, residencyHeld: Tick, reservationHeld: Tick)

  const WORKING: Categories := iset{USEFUL_EXECUTION, NON_USEFUL_EXECUTION, RETRY_EXECUTION}

  /** The events of one workload among those of a device. */
  function OfWorkload(events: seq<EventSpan>, wl: Id): seq<EventSpan> {
    if |events| == 0 then [] else
    OfWorkload(events[..|events| - 1], wl)
    + (if events[|events| - 1].workload == wl then [events[|events| - 1]] else [])
  }

  /** The events of one workload on the devices in `order`. */
  function WorkloadEvents(devices: map<Id, Device>, order: seq<Id>, wl: Id): seq<EventSpan> {
    if |order| == 0 then [] else
    WorkloadEvents(devices, order[..|order| - 1], wl) + OfWorkload(EventsIn(devices, order[|order| - 1]), wl)
  }

  /** Every component read off the ticks the workload's events cover, on whatever device. */
  ghost function WorkloadOf(events: seq<EventSpan>, win: Interval): WorkloadView {
    WorkloadView(
      Time(events, WORKING, win), Time(events, Only(USEFUL_EXECUTION), win),
      Time(events, Only(NON_USEFUL_EXECUTION), win), Time(events, Only(RETRY_EXECUTION), win),
      Time(events, Only(TRANSFER_ACTIVE), win), Time(events, Only(RESIDENCY_IDLE), win),
      Time(events, Only(RESERVED_IDLE), win))
  }

  /** The six interval lists the view is swept from. */
  datatype Lists = Lists(
    useful: seq<Interval>, nonUseful: seq<Interval>, retry: seq<Interval>,
    transfer: seq<Interval>, residency: seq<Interval>, reservation: seq<Interval>)

  function Push(l: Lists, category: u8, x: Interval): Lists {
    if category == USEFUL_EXECUTION then l.(useful := l.useful + [x])
    else if category == NON_USEFUL_EXECUTION then l.(nonUseful := l.nonUseful + [x])
    else if category == RETRY_EXECUTION then l.(retry := l.retry + [x])
    else if category == TRANSFER_ACTIVE then l.(transfer := l.transfer + [x])
    else if category == RESIDENCY_IDLE then l.(residency := l.residency + [x])
    else if category == RESERVED_IDLE then l.(reservation := l.reservation + [x])
    else l
  }

  ghost predicate ListsCover(l: Lists, events: seq<EventSpan>, win: Interval) {
    && Covered(l.useful) == Ticks(events, Only(USEFUL_EXECUTION), win)
    && Covered(l.nonUseful) == Ticks(events, Only(NON_USEFUL_EXECUTION), win)
    && Covered(l.retry) == Ticks(events, Only(RETRY_EXECUTION), win)
    && Covered(l.transfer) == Ticks(events, Only(TRANSFER_ACTIVE), win)
    && Covered(l.residency) == Ticks(events, Only(RESIDENCY_IDLE), win)
    && Covered(l.reservation) == Ticks(events, Only(RESERVED_IDLE), win)
  }

  lemma PushCovers(l: Lists, events: seq<EventSpan>, e: EventSpan, win: Interval)
    requires ListsCover(l, events, win)
    ensures ListsCover(Push(l, e.category, Intersect(e.span, win)), events + [e], win)
  {
    hide Covered;
    hide Ticks;
    var x := Intersect(e.span, win);
    TicksAppend(events, e, Only(USEFUL_EXECUTION), win);
    TicksAppend(events, e, Only(NON_USEFUL_EXECUTION), win);
    TicksAppend(events, e, Only(RETRY_EXECUTION), win);
    TicksAppend(events, e, Only(TRANSFER_ACTIVE), win);
    TicksAppend(events, e, Only(RESIDENCY_IDLE), win);
    TicksAppend(events, e, Only(RESERVED_IDLE), win);
    CoveredConcatenation(l.useful, [x]);
    CoveredConcatenation(l.nonUseful, [x]);
    CoveredConcatenation(l.retry, [x]);
    CoveredConcatenation(l.transfer, [x]);
    CoveredConcatenation(l.residency, [x]);
    CoveredConcatenation(l.reservation, [x]);
  }

  method ComputeWorkload(devices: map<Id, Device>, order: seq<Id>, wl: Id, win: Interval) returns (v: WorkloadView)
    requires Enumerates(order, devices)
    ensures v == WorkloadOf(WorkloadEvents(devices, order, wl), win)
  {
    var l := Lists([], [], [], [], [], []);
    for i := 0 to |order|
      invariant ListsCover(l, WorkloadEvents(devices, order[..i], wl), win)
    {
      ghost var before := WorkloadEvents(devices, order[..i], wl);
      l := CollectWorkload(l, devices[order[i]].events, wl, win, before);
      assert order[..i + 1][..i] == order[..i];
    }
    assert order[..|order|] == order;
    v := SweepLists(l, WorkloadEvents(devices, order, wl), win);
  }

  /** The inner loop: one device's events, sorted into the lists by category. */
  method CollectWorkload(l0: Lists, events: seq<EventSpan>, wl: Id, win: Interval, ghost before: seq<EventSpan>)
    returns (l: Lists)
    requires ListsCover(l0, before, win)
    ensures ListsCover(l, before + OfWorkload(events, wl), win)
  {
    hide ListsCover;
    hide Push;
    l := l0;
    assert before + OfWorkload(events[..0], wl) == before;
    for j := 0 to |events|
      invariant ListsCover(l, before + OfWorkload(events[..j], wl), win)
    {
      var e := events[j];
      ghost var sofar := before + OfWorkload(events[..j], wl);
      assert events[..j + 1][..j] == events[..j];
      if e.workload == wl {
        PushCovers(l, sofar, e, win);
        assert before + OfWorkload(events[..j + 1], wl) == sofar + [e];
        l := Push(l, e.category, Intersect(e.span, win));
      } else {
        assert before + OfWorkload(events[..j + 1], wl) == sofar;
      }
    }
    assert events[..|events|] == events;
  }

  method SweepLists(l: Lists, ghost events: seq<EventSpan>, win: Interval) returns (v: WorkloadView)
    requires ListsCover(l, events, win)
    ensures v == WorkloadOf(events, win)
  {
    hide Ticks;
    hide Covered;
    var active := l.useful + l.nonUseful + l.retry;
    CoveredConcatenation(l.useful, l.nonUseful);
    CoveredConcatenation(l.useful + l.nonUseful, l.retry);
    WorkingIsThree(events, win);
    var activeTime := UnionDuration(active);
    var usefulTime := UnionDuration(l.useful);
    var nonUsefulTime := UnionDuration(l.nonUseful);
    var retryTime := UnionDuration(l.retry);
    var transferTime := UnionDuration(l.transfer);
    var residencyTime := UnionDuration(l.residency);
    var reservationTime := UnionDuration(l.reservation);
    v := WorkloadView(activeTime, usefulTime, nonUsefulTime, retryTime, transferTime, residencyTime, reservationTime);
  }

  lemma WorkingIsThree(events: seq<EventSpan>, win: Interval)
    ensures Ticks(events, WORKING, win) == Ticks(events, Only(USEFUL_EXECUTION), win)
      + Ticks(events, Only(NON_USEFUL_EXECUTION), win) + Ticks(events, Only(RETRY_EXECUTION), win)
  {
    hide Ticks;
    var two := Only(USEFUL_EXECUTION) + Only(NON_USEFUL_EXECUTION);
    assert WORKING == two + Only(RETRY_EXECUTION);
    TicksUnion(events, Only(USEFUL_EXECUTION), Only(NON_USEFUL_EXECUTION), win);
    TicksUnion(events, two, Only(RETRY_EXECUTION), win);
  }

  lemma {:induction false} OfWorkloadMembers(events: seq<EventSpan>, wl: Id, e: EventSpan)
    ensures e in OfWorkload(events, wl) <==> e in events && e.workload == wl
    decreases |events|
  {
    if |events| > 0 {
      OfWorkloadMembers(events[..|events| - 1], wl, e);
      assert events == events[..|events| - 1] + [events[|events| - 1]];
    }
  }

  lemma {:induction false} WorkloadMembers(devices: map<Id, Device>, order: seq<Id>, wl: Id, e: EventSpan)
    ensures e in WorkloadEvents(devices, order, wl) <==>
      e.workload == wl && exists d :: d in order && e in EventsIn(devices, d)
    decreases |order|
  {
    hide EventsIn;
    hide OfWorkload;
    if |order| > 0 {
      var n := |order| - 1;
      WorkloadMembers(devices, order[..n], wl, e);
      OfWorkloadMembers(EventsIn(devices, order[n]), wl, e);
      assert order == order[..n] + [order[n]];
    }
  }

  /** The workload view does not depend on map order, and its parts fit together. */
  lemma {:induction false} WorkloadIgnoresMapOrder(devices: map<Id, Device>, a: seq<Id>, b: seq<Id>, wl: Id,
                                                   win: Interval)
    requires Enumerates(a, devices) && Enumerates(b, devices)
    ensures var v := WorkloadOf(WorkloadEvents(devices, a, wl), win);
      && v == WorkloadOf(WorkloadEvents(devices, b, wl), win)
      && v.usefulExecution <= v.activeExecution && v.nonUsefulExecution <= v.activeExecution
      && v.retryTime <= v.activeExecution <= win.Duration()
      && v.activeExecution <= v.usefulExecution + v.nonUsefulExecution + v.retryTime
  {
    var p, q := WorkloadEvents(devices, a, wl), WorkloadEvents(devices, b, wl);
    forall e
      ensures e in p <==> e in q
    {
      WorkloadMembers(devices, a, wl, e);
      WorkloadMembers(devices, b, wl, e);
    }
    hide WorkloadEvents;
    forall cats: Categories
      ensures Ticks(p, cats, win) == Ticks(q, cats, win)
    {
      SameMembersSameTicks(p, q, cats, win);
    }
    WorkingBounds(p, win);
  }

  lemma SameMembersSameTicks(p: seq<EventSpan>, q: seq<EventSpan>, cats: Categories, win: Interval)
    requires forall e :: e in p <==> e in q
    ensures Ticks(p, cats, win) == Ticks(q, cats, win)
  {
    forall t
      ensures Active(p, cats, t) <==> Active(q, cats, t)
    {
      if Active(p, cats, t) {
        var i :| 0 <= i < |p| && p[i].category in cats && p[i].span.Contains(t);
        assert p[i] in q;
      }
      if Active(q, cats, t) {
        var i :| 0 <= i < |q| && q[i].category in cats && q[i].span.Contains(t);
        assert q[i] in p;
      }
    }
  }

  lemma WorkingBounds(events: seq<EventSpan>, win: Interval)
    ensures var v := WorkloadOf(events, win);
      && v.usefulExecution <= v.activeExecution && v.nonUsefulExecution <= v.activeExecution
      && v.retryTime <= v.activeExecution <= win.Duration()
      && v.activeExecution <= v.usefulExecution + v.nonUsefulExecution + v.retryTime
  {
    hide Ticks;
    WorkingIsThree(events, win);
    TicksInWindow(events, WORKING, win);
    var u, n, r := Ticks(events, Only(USEFUL_EXECUTION), win), Ticks(events, Only(NON_USEFUL_EXECUTION), win),
      Ticks(events, Only(RETRY_EXECUTION), win);
    var all := Ticks(events, WORKING, win);
    Monotone(u, all);
    Monotone(n, all);
    Monotone(r, all);
    WindowTheorems.UnionBound(u, n);
    WindowTheorems.UnionBound(u + n, r);
  }
}
