/** What exactly comes back when a saved file is loaded: events, timelines and totals. */
module Reloads {
  import opened Words
  import opened Intervals
  import opened Sorting
  import opened Observations
  import opened Engine
  import opened Machine
  import opened Reachability
  import opened LogReading
  import opened Windows
  import opened EndToEnd
  import opened Timeline
  import opened Persistence
  import opened Conservation
  import opened Authority
  import opened DedupWindow
  import FileFormat
  import FileTheorems

  // ----- reading a log whose first `cut` observations were dropped -----

  /** A position as seen after the first `cut` ones are gone. */
  function Shift(r: Option<nat>, cut: nat): Option<nat> {
    if r.Some? && r.value >= cut then Some(r.value - cut) else None
  }

  lemma {:induction false} SuffixOpenIndex(log: seq<Observation>, cut: nat, n: nat, key: IntervalKey)
    requires cut <= n <= |log|
    ensures OpenIndex(log[cut..], n - cut, key) == Shift(OpenIndex(log, n, key), cut)
  {
    hide TouchesKey;
    hide IsBegin;
    if n > cut {
      SuffixOpenIndex(log, cut, n - 1, key);
      assert log[cut..][n - 1 - cut] == log[n - 1];
    }
  }

  lemma SuffixCloses(log: seq<Observation>, cut: nat, j: nat)
    requires cut <= j < |log|
    ensures Closes(log[cut..], j - cut) == Shift(Closes(log, j), cut)
  {
    hide IsEnd;
    hide KeyOf;
    hide OpenIndex;
    assert log[cut..][j - cut] == log[j];
    SuffixOpenIndex(log, cut, j, KeyOf(log[j]));
  }

  /** The events of device d whose begin was not among the first `cut` observations. */
  function Survivors(log: seq<Observation>, cut: nat, n: nat, d: Id): seq<EventSpan>
    requires n <= |log|
  {
    if n == 0 then [] else
    var before := Survivors(log, cut, n - 1, d);
    if ClosesFor(log, n - 1, d) && Closes(log, n - 1).value >= cut then before + [EventAt(log, n - 1)] else before
  }

  lemma {:induction false} NothingSurvivesYet(log: seq<Observation>, cut: nat, n: nat, d: Id)
    requires n <= cut <= |log|
    ensures Survivors(log, cut, n, d) == []
  {
    hide Closes;
    if n > 0 {
      NothingSurvivesYet(log, cut, n - 1, d);
    }
  }

  /** The rest of the log shows exactly the events whose begin it still has. */
  lemma {:induction false} SuffixEvents(log: seq<Observation>, cut: nat, n: nat, d: Id)
    requires cut <= n <= |log|
    ensures EventsOf(log[cut..], n - cut, d) == Survivors(log, cut, n, d)
  {
    hide Closes;
    hide PairEvent;
    if n == cut {
      NothingSurvivesYet(log, cut, n, d);
    } else {
      SuffixEvents(log, cut, n - 1, d);
      EventsAppend(log[cut..], n - 1 - cut, d);
      SuffixEvent(log, cut, n - 1, d);
      hide EventsOf;
      hide ClosesFor;
      hide EventAt;
    }
  }

  /** The rest of the log makes the same event at the same end, when it still has the begin. */
  lemma SuffixEvent(log: seq<Observation>, cut: nat, j: nat, d: Id)
    requires cut <= j < |log|
    ensures var rest := log[cut..];
      && (ClosesFor(rest, j - cut, d) <==> ClosesFor(log, j, d) && Closes(log, j).value >= cut)
      && (ClosesFor(rest, j - cut, d) ==> EventAt(rest, j - cut) == EventAt(log, j))
  {
    hide Closes;
    hide PairEvent;
    SuffixCloses(log, cut, j);
    var c := Closes(log, j);
    assert log[cut..][j - cut] == log[j];
    assert c.Some? && c.value >= cut ==> log[cut..][c.value - cut] == log[c.value];
  }

  // ----- what is lost -----

  /** The begin at a was dropped, and the end at b had closed it. */
  ghost predicate Lost(log: seq<Observation>, cut: nat, a: int, b: int) {
    a < cut && Pair(log, a, b)
  }

  /** A lost interval of device d. */
  ghost predicate LostOn(log: seq<Observation>, cut: nat, d: Id, a: int, b: int) {
    Lost(log, cut, a, b) && log[b].device == d
  }

  /** A lost interval the window's timeline would show. */
  ghost predicate LostShown(log: seq<Observation>, cut: nat, win: Interval, a: int, b: int) {
    Lost(log, cut, a, b) && Shown(PairEvent(log[a], log[b]), win)
  }

  ghost predicate LostShownOn(log: seq<Observation>, cut: nat, d: Id, win: Interval, a: int, b: int) {
    LostShown(log, cut, win, a, b) && log[b].device == d
  }

  /** A lost interval belongs to some device. */
  lemma LostSomewhere(log: seq<Observation>, cut: nat, win: Interval)
    ensures (exists a, b :: LostShown(log, cut, win, a, b)) <==> exists d, a, b :: LostShownOn(log, cut, d, win, a, b)
  {
    hide Pair;
    hide Shown;
    if a, b :| LostShown(log, cut, win, a, b) {
      PairInside(log, a, b);
      assert LostShownOn(log, cut, log[b].device, win, a, b);
    }
    if d, a, b :| LostShownOn(log, cut, d, win, a, b) {
      assert LostShown(log, cut, win, a, b);
    }
  }

  /** Position j closes an interval of device d that began in the dropped part. */
  predicate LosesAt(log: seq<Observation>, cut: nat, d: Id, j: nat)
    requires j < |log|
  {
    ClosesFor(log, j, d) && Closes(log, j).value < cut
  }

  lemma LosesLost(log: seq<Observation>, cut: nat, d: Id)
    ensures (exists j :: 0 <= j < |log| && LosesAt(log, cut, d, j)) <==> exists a, b :: LostOn(log, cut, d, a, b)
  {
    hide Closes;
    hide Pair;
    if j :| 0 <= j < |log| && LosesAt(log, cut, d, j) {
      ClosesIsPair(log, Closes(log, j).value, j);
      assert LostOn(log, cut, d, Closes(log, j).value, j);
    }
    if a, b :| LostOn(log, cut, d, a, b) {
      PairInside(log, a, b);
      ClosesIsPair(log, a, b);
      assert LosesAt(log, cut, d, b);
    }
  }

  lemma LosesShown(log: seq<Observation>, cut: nat, d: Id, win: Interval)
    ensures (exists j :: 0 <= j < |log| && LosesAt(log, cut, d, j) && Shown(EventAt(log, j), win))
      <==> exists a, b :: LostShownOn(log, cut, d, win, a, b)
  {
    hide Closes;
    hide Pair;
    hide Shown;
    hide PairEvent;
    if j :| 0 <= j < |log| && LosesAt(log, cut, d, j) && Shown(EventAt(log, j), win) {
      ClosesIsPair(log, Closes(log, j).value, j);
      assert LostShownOn(log, cut, d, win, Closes(log, j).value, j);
    }
    if a, b :| LostShownOn(log, cut, d, win, a, b) {
      PairInside(log, a, b);
      ClosesIsPair(log, a, b);
      assert LosesAt(log, cut, d, b);
    }
  }

  /** Losing an interval makes the list shorter; losing none leaves it as it is. */
  lemma {:induction false} SurvivorsOrFewer(log: seq<Observation>, cut: nat, n: nat, d: Id)
    requires n <= |log|
    ensures var kept, all := Survivors(log, cut, n, d), EventsOf(log, n, d);
      if exists j :: 0 <= j < n && LosesAt(log, cut, d, j) then |kept| < |all| else kept == all
  {
    hide Closes;
    hide PairEvent;
    if n > 0 {
      SurvivorsOrFewer(log, cut, n - 1, d);
      EventsAppend(log, n - 1, d);
      hide EventsOf;
      assert LosesAt(log, cut, d, n - 1) <==> ClosesFor(log, n - 1, d) && Closes(log, n - 1).value < cut;
    }
  }

  /** The same for what one window shows of them. */
  lemma {:induction false} EntriesOrFewer(log: seq<Observation>, cut: nat, n: nat, d: Id, win: Interval)
    requires n <= |log|
    ensures var kept := DeviceEntries(d, Survivors(log, cut, n, d), win);
      var all := DeviceEntries(d, EventsOf(log, n, d), win);
      if exists j :: 0 <= j < n && LosesAt(log, cut, d, j) && Shown(EventAt(log, j), win) then |kept| < |all|
      else kept == all
  {
    hide Closes;
    hide Shown;
    hide PairEvent;
    hide DeviceEntries;
    if n > 0 {
      EntriesOrFewer(log, cut, n - 1, d, win);
      EventsAppend(log, n - 1, d);
      hide EventsOf;
      if ClosesFor(log, n - 1, d) {
        DeviceEntriesAppend(d, EventsOf(log, n - 1, d), EventAt(log, n - 1), win);
        DeviceEntriesAppend(d, Survivors(log, cut, n - 1, d), EventAt(log, n - 1), win);
      }
    } else {
      assert Survivors(log, cut, 0, d) == EventsOf(log, 0, d);
    }
  }

  // ----- after a successful load -----

  /** How many accepted observations the history no longer holds. */
  function Dropped(s: State, log: seq<Observation>): nat
    requires |s.history| <= |log|
  {
    |log| - |s.history|
  }

  /** What a successful load leaves: accumulators read off the part of the log the file held. */
  lemma {:induction false} LoadedReading(limits: Limits, epoch: u64, generation: u64, ops: seq<Op>, i: nat,
                                         loader: State, d: Id)
    requires i <= |ops|
    requires Load(loader, Save(StateAt(Init(limits, epoch, generation), ops, i))).status == Ok
    ensures var s0 := Init(limits, epoch, generation);
      var s, log := StateAt(s0, ops, i), LogAt(s0, ops, i);
      var t := Load(loader, Save(s)).state;
      && |s.history| <= |log| && s.history == log[Dropped(s, log)..]
      && EventsIn(s.devices, d) == EventsOf(log, |log|, d)
      && EventsIn(t.devices, d) == EventsOf(s.history, |s.history|, d)
      && EventsIn(t.devices, d) == Survivors(log, Dropped(s, log), |log|, d)
  {
    hide StateAt;
    hide LogAt;
    hide Load;
    hide Save;
    hide DevicesOf;
    hide EventsOf;
    hide EventsIn;
    hide Survivors;
    hide WellFormed;
    hide Spaced;
    var s0 := Init(limits, epoch, generation);
    var s, log := StateAt(s0, ops, i), LogAt(s0, ops, i);
    RunFaithful(limits, epoch, generation, ops, i);
    SavedStateLoads(limits, epoch, generation, ops, i, loader);
    DevicesReadLog(s.devices, log, d);
    DevicesReadLog(Load(loader, Save(s)).state.devices, s.history, d);
    SuffixEvents(log, Dropped(s, log), |log|, d);
  }

  /**
   A successful load gives a device exactly the events whose begin the file still holds; so it gives
   it all of them if and only if no closed interval of the device began in the dropped part.
   */
  lemma {:induction false} EventsReturn(limits: Limits, epoch: u64, generation: u64, ops: seq<Op>, i: nat,
                                        loader: State, d: Id)
    requires i <= |ops|
    requires Load(loader, Save(StateAt(Init(limits, epoch, generation), ops, i))).status == Ok
    ensures var s0 := Init(limits, epoch, generation);
      var s, log := StateAt(s0, ops, i), LogAt(s0, ops, i);
      var t := Load(loader, Save(s)).state;
      && |s.history| <= |log|
      && EventsIn(t.devices, d) == Survivors(log, Dropped(s, log), |log|, d)
      && (EventsIn(t.devices, d) == EventsIn(s.devices, d) <==> !exists a, b :: LostOn(log, Dropped(s, log), d, a, b))
  {
    hide StateAt;
    hide LogAt;
    hide Load;
    hide Save;
    hide EventsOf;
    hide EventsIn;
    hide Survivors;
    hide LosesAt;
    hide LostOn;
    hide WellFormed;
    var s0 := Init(limits, epoch, generation);
    var s, log := StateAt(s0, ops, i), LogAt(s0, ops, i);
    LoadedReading(limits, epoch, generation, ops, i, loader, d);
    SurvivorsOrFewer(log, Dropped(s, log), |log|, d);
    LosesLost(log, Dropped(s, log), d);
  }

  // ----- what a saved file says -----

  /**
   A saved file is stamped with the running epoch, which is the initial one plus the advances, and
   with the configured generation, and holds one record for each kept observation.
   */
  lemma {:induction false} SavedStamp(limits: Limits, epoch: u64, generation: u64, ops: seq<Op>, i: nat)
    requires i <= |ops|
    ensures var s := StateAt(Init(limits, epoch, generation), ops, i);
      var file := Save(s);
      && |file| == 32 + 316 * |s.history|
      && file[8..16] == LittleEndian((epoch + AdvancesIn(ops, i)) % U64_LIMIT, 8)
      && file[16..24] == LittleEndian(generation, 8)
      && file[24..32] == LittleEndian(|s.history|, 8)
  {
    hide StateAt;
    hide LittleEndian;
    hide FileFormat.File;
    var s := StateAt(Init(limits, epoch, generation), ops, i);
    LoadedHistoryFits(limits, epoch, generation, ops, i);
    EpochCountsAdvances(limits, epoch, generation, ops, i);
    RunWindow(limits, epoch, generation, ops, i);
    FileTheorems.FileLayout(s.epoch, s.generation, s.history);
    assert Save(s) == FileFormat.File(s.epoch, s.generation, s.history);
  }

  // ----- sources -----

  /**
   After a successful load a source is known if and only if the saved history names it, under the
   authority of its last record there. It is disconnected: that authority is refused, and any other
   passes the authority check.
   */
  lemma {:induction false} SourcesReturn(limits: Limits, epoch: u64, generation: u64, ops: seq<Op>, i: nat,
                                         loader: State, o: Observation, m: nat)
    requires i <= |ops| && o.coordinatorEpoch == loader.epoch
    requires Load(loader, Save(StateAt(Init(limits, epoch, generation), ops, i))).status == Ok
    ensures var s := StateAt(Init(limits, epoch, generation), ops, i);
      var t := Load(loader, Save(s)).state;
      && SourcesShow(t.sources, s.history, |s.history|)
      && (LastOf(s.history, |s.history|, o.source, m) ==>
            var last, status := s.history[m], Ingest(t, false, o).status;
            if o.sourceGeneration == last.sourceGeneration && o.workerBoot == last.workerBoot
            then status == SourceDisconnected else !Unauthorized(status))
  {
    hide StateAt;
    hide LogAt;
    hide Ingest;
    hide Replay;
    hide LastOf;
    hide SourcesShow;
    hide FileFormat.Parse;
    hide FileFormat.File;
    var s := StateAt(Init(limits, epoch, generation), ops, i);
    LoadedHistoryFits(limits, epoch, generation, ops, i);
    SavedFileParses(s);
    LoadedAuthorities(loader, Save(s));
    if LastOf(s.history, |s.history|, o.source, m) {
      LoadedSourcesNeedRevalidation(loader, Save(s), o, m);
    }
  }

  // ----- timelines -----

  /** Two device maps have the same timeline entries if and only if every device lists the same ones. */
  lemma SameEntries(a: map<Id, Device>, b: map<Id, Device>, x: seq<Id>, y: seq<Id>, win: Interval)
    requires Enumerates(x, a) && Enumerates(y, b)
    ensures multiset(Entries(a, x, win)) == multiset(Entries(b, y, win)) <==>
      forall d :: multiset(DeviceEntries(d, EventsIn(a, d), win)) == multiset(DeviceEntries(d, EventsIn(b, d), win))
  {
    hide Entries;
    hide DeviceEntries;
    hide EventsIn;
    hide Enumerates;
    forall te: TimelineEvent
      ensures multiset(Entries(a, x, win))[te] ==
        multiset(DeviceEntries(te.device, EventsIn(a, te.device), win))[te]
      ensures multiset(Entries(b, y, win))[te] ==
        multiset(DeviceEntries(te.device, EventsIn(b, te.device), win))[te]
    {
      EntryCountOf(a, x, win, te);
      EntryCountOf(b, y, win, te);
    }
    if multiset(Entries(a, x, win)) == multiset(Entries(b, y, win)) {
      forall d
        ensures multiset(DeviceEntries(d, EventsIn(a, d), win)) == multiset(DeviceEntries(d, EventsIn(b, d), win))
      {
        OwnEntries(d, EventsIn(a, d), EventsIn(b, d), win);
      }
    }
  }

  /** Entries listed for one device name that device, so only those need comparing. */
  lemma OwnEntries(d: Id, p: seq<EventSpan>, q: seq<EventSpan>, win: Interval)
    requires forall te: TimelineEvent :: te.device == d ==>
      multiset(DeviceEntries(d, p, win))[te] == multiset(DeviceEntries(d, q, win))[te]
    ensures multiset(DeviceEntries(d, p, win)) == multiset(DeviceEntries(d, q, win))
  {
    hide DeviceEntries;
    hide Shown;
    forall te: TimelineEvent
      ensures multiset(DeviceEntries(d, p, win))[te] == multiset(DeviceEntries(d, q, win))[te]
    {
      DeviceEntriesListShown(d, p, win, te);
      DeviceEntriesListShown(d, q, win, te);
    }
  }

  /**
   The timelines of a window before saving and after a successful load, in whatever order the maps
   are walked: they have the same entries if and only if no closed interval that the window shows
   began in the dropped part; and when begin, device, source and observation tell entries apart, that
   is exactly when the two timelines are identical.
   */
  lemma {:induction false} TimelinesReturn(
    limits: Limits, epoch: u64, generation: u64, ops: seq<Op>, i: nat, loader: State, win: Interval,
    saved: seq<Id>, loaded: seq<Id>, x: seq<TimelineEvent>, y: seq<TimelineEvent>)
    requires i <= |ops|
    requires Load(loader, Save(StateAt(Init(limits, epoch, generation), ops, i))).status == Ok
    requires var s := StateAt(Init(limits, epoch, generation), ops, i);
      var t := Load(loader, Save(s)).state;
      && Enumerates(saved, s.devices) && Sorts(ComesBefore, Entries(s.devices, saved, win), x)
      && Enumerates(loaded, t.devices) && Sorts(ComesBefore, Entries(t.devices, loaded, win), y)
    ensures var s0 := Init(limits, epoch, generation);
      var s, log := StateAt(s0, ops, i), LogAt(s0, ops, i);
      && |s.history| <= |log|
      && (multiset(x) == multiset(y) <==> !exists a, b :: LostShown(log, Dropped(s, log), win, a, b))
      && (ToldApart(x) ==> (x == y <==> !exists a, b :: LostShown(log, Dropped(s, log), win, a, b)))
  {
    hide StateAt;
    hide LogAt;
    hide Load;
    hide Save;
    hide Entries;
    hide Enumerates;
    hide LostShown;
    hide LostShownOn;
    hide DeviceEntries;
    hide EventsIn;
    hide ToldApart;
    var s0 := Init(limits, epoch, generation);
    var s, log := StateAt(s0, ops, i), LogAt(s0, ops, i);
    var t := Load(loader, Save(s)).state;
    LoadedHistoryFits(limits, epoch, generation, ops, i);
    forall d
      ensures multiset(DeviceEntries(d, EventsIn(s.devices, d), win))
           == multiset(DeviceEntries(d, EventsIn(t.devices, d), win))
        <==> !exists a, b :: LostShownOn(log, Dropped(s, log), d, win, a, b)
    {
      DeviceEntriesReturn(limits, epoch, generation, ops, i, loader, d, win);
    }
    LostSomewhere(log, Dropped(s, log), win);
    SameEntries(s.devices, t.devices, saved, loaded, win);
    if d, a, b :| LostShownOn(log, Dropped(s, log), d, win, a, b) {
      assert multiset(DeviceEntries(d, EventsIn(s.devices, d), win))
          != multiset(DeviceEntries(d, EventsIn(t.devices, d), win));
    }
    if ToldApart(x) && multiset(x) == multiset(y) {
      ToldApartIsUnique(x, y);
    }
  }

  lemma LoadedHistoryFits(limits: Limits, epoch: u64, generation: u64, ops: seq<Op>, i: nat)
    requires i <= |ops|
    ensures var s0 := Init(limits, epoch, generation);
      |StateAt(s0, ops, i).history| <= |LogAt(s0, ops, i)| && |StateAt(s0, ops, i).history| < U64_LIMIT
  {
    hide StateAt;
    hide LogAt;
    RunFaithful(limits, epoch, generation, ops, i);
  }

  lemma {:induction false} DeviceEntriesReturn(limits: Limits, epoch: u64, generation: u64, ops: seq<Op>, i: nat,
                                               loader: State, d: Id, win: Interval)
    requires i <= |ops|
    requires Load(loader, Save(StateAt(Init(limits, epoch, generation), ops, i))).status == Ok
    ensures var s0 := Init(limits, epoch, generation);
      var s, log := StateAt(s0, ops, i), LogAt(s0, ops, i);
      var t := Load(loader, Save(s)).state;
      && |s.history| <= |log|
      && (multiset(DeviceEntries(d, EventsIn(s.devices, d), win))
          == multiset(DeviceEntries(d, EventsIn(t.devices, d), win))
          <==> !exists a, b :: LostShownOn(log, Dropped(s, log), d, win, a, b))
  {
    hide StateAt;
    hide LogAt;
    hide Load;
    hide Save;
    hide EventsOf;
    hide EventsIn;
    hide Survivors;
    hide DeviceEntries;
    hide LosesAt;
    hide LostShownOn;
    hide WellFormed;
    var s0 := Init(limits, epoch, generation);
    var s, log := StateAt(s0, ops, i), LogAt(s0, ops, i);
    LoadedReading(limits, epoch, generation, ops, i, loader, d);
    EntriesOrFewer(log, Dropped(s, log), |log|, d, win);
    LosesShown(log, Dropped(s, log), d, win);
    var all := DeviceEntries(d, EventsIn(s.devices, d), win);
    var kept := DeviceEntries(d, EventsIn(Load(loader, Save(s)).state.devices, d), win);
    assert |all| == |multiset(all)| && |kept| == |multiset(kept)|;
  }

  // ----- totals -----

  lemma SameSizeSameSet(a: set<int>, b: set<int>)
    requires a <= b
    ensures |a| == |b| <==> a == b
  {
    if |a| == |b| {
      assert b == a + (b - a);
      DisjointUnion(a, b - a);
    }
  }

  /**
   After a successful load every window component counts the ticks the saved history shows; it is
   what it was before saving if and only if every tick of the window that the whole log shows in
   those categories is shown by the saved history too.
   */
  lemma {:induction false} TotalsReturn(limits: Limits, epoch: u64, generation: u64, ops: seq<Op>, i: nat,
                                        loader: State, d: Id, cats: Categories, win: Interval)
    requires i <= |ops|
    requires Load(loader, Save(StateAt(Init(limits, epoch, generation), ops, i))).status == Ok
    ensures var s0 := Init(limits, epoch, generation);
      var s, log := StateAt(s0, ops, i), LogAt(s0, ops, i);
      var t := Load(loader, Save(s)).state;
      && CountsLog(WindowOf(EventsIn(t.devices, d), win), s.history, d, win)
      && (Time(EventsIn(t.devices, d), cats, win) == Time(EventsIn(s.devices, d), cats, win) <==>
            forall at :: win.Contains(at) && LogActive(log, d, cats, at) ==> LogActive(s.history, d, cats, at))
  {
    hide StateAt;
    hide LogAt;
    hide Load;
    hide Save;
    hide EventsIn;
    hide Survivors;
    hide CountsLog;
    hide WindowOf;
    var s0 := Init(limits, epoch, generation);
    var s, log := StateAt(s0, ops, i), LogAt(s0, ops, i);
    LoadedReading(limits, epoch, generation, ops, i, loader, d);
    EventTimesCountLog(s.history, d, win);
    SuffixTimes(log, Dropped(s, log), d, cats, win);
  }

  lemma SuffixTimes(log: seq<Observation>, cut: nat, d: Id, cats: Categories, win: Interval)
    requires cut <= |log|
    ensures var rest := log[cut..];
      Time(EventsOf(rest, |rest|, d), cats, win) == Time(EventsOf(log, |log|, d), cats, win) <==>
        forall at :: win.Contains(at) && LogActive(log, d, cats, at) ==> LogActive(rest, d, cats, at)
  {
    hide EventsOf;
    hide LogActive;
    hide Active;
    var rest := log[cut..];
    var some, all := Ticks(EventsOf(rest, |rest|, d), cats, win), Ticks(EventsOf(log, |log|, d), cats, win);
    forall at
      ensures Active(EventsOf(rest, |rest|, d), cats, at) <==> LogActive(rest, d, cats, at)
      ensures Active(EventsOf(log, |log|, d), cats, at) <==> LogActive(log, d, cats, at)
      ensures LogActive(rest, d, cats, at) ==> LogActive(log, d, cats, at)
    {
      EventsShowLog(rest, d, cats, at);
      EventsShowLog(log, d, cats, at);
      if LogActive(rest, d, cats, at) {
        SuffixActive(log, cut, d, cats, at);
      }
    }
    SameSizeSameSet(some, all);
  }

  lemma SuffixActive(log: seq<Observation>, cut: nat, d: Id, cats: Categories, at: int)
    requires cut <= |log| && LogActive(log[cut..], d, cats, at)
    ensures LogActive(log, d, cats, at)
  {
    hide PairCategory;
    hide PairSpan;
    hide Couple;
    hide SameSubject;
    var rest := log[cut..];
    var a, b :| Pair(rest, a, b) && rest[b].device == d
      && PairCategory(rest[a], rest[b]) in cats && PairSpan(rest[a], rest[b]).Contains(at);
    PairInside(rest, a, b);
    assert log[cut..|log|] == rest;
    StretchMakes(log, cut, |log|, d, PairEvent(rest[a], rest[b]), a, b);
    assert log[cut + a] == rest[a] && log[cut + b] == rest[b];
  }
}
