/** What authority, samples, useful bands, capacity and vendor readings of a device say about the accepted log. */
module DeviceReading {
  import opened Words
  import opened Intervals
  import opened Observations
  import opened Engine
  import opened Machine
  import opened Reachability
  import opened DedupWindow

  predicate IsSample(o: Observation) {
    o.kind == DEVICE_SAMPLE || o.kind == WORKLOAD_SAMPLE
  }

  /** The sample points of device d among the first n observations, oldest first. */
  function SamplesOf(log: seq<Observation>, n: nat, d: Id): seq<SamplePoint>
    requires n <= |log|
  {
    if n == 0 then [] else
    var o, before := log[n - 1], SamplesOf(log, n - 1, d);
    if o.device == d && IsSample(o)
    then before + [SamplePoint(o.begin, o.percent, o.bytes, o.capacityBytes, o.wallTime, o.provenance, o.source)]
    else before
  }

  /** The useful-work and efficiency summaries of positive length. */
  function BandsOf(log: seq<Observation>, n: nat, d: Id): seq<UsefulBand>
    requires n <= |log|
  {
    if n == 0 then [] else
    var o, before := log[n - 1], BandsOf(log, n - 1, d);
    if o.device == d && (o.kind == USEFUL_WORK_SUMMARY || o.kind == EFFICIENCY_SUMMARY) && o.end > o.begin
    then before + [UsefulBand(Interval(o.begin, o.end), o.ratio, o.source, o.sourceGeneration, o.provenance)]
    else before
  }

  // ----- last observations -----

  predicate Publishes(o: Observation) { o.kind == CAPACITY_PUBLISHED || o.kind == CAPACITY_INVALIDATED }

  predicate Fragments(o: Observation) { o.kind == FRAGMENTATION_OBSERVED || o.kind == FRAGMENTATION_CLEARED }

  predicate Qualifies(o: Observation) { o.kind == FRAGMENTATION_OBSERVED }

  predicate Measures(o: Observation) { o.kind == MEMORY_SAMPLE && o.capacityBytes > 0 }

  predicate ReadsVendor(o: Observation) { o.kind == DEVICE_SAMPLE }

  predicate NamesState(o: Observation) { o.deviceState != UNKNOWN_DEVICE_STATE }

  /** The last of the first n positions that concerns device d in the given way; -1 if there is none. */
  function LastIndex(log: seq<Observation>, n: nat, d: Id, which: Observation -> bool): (r: int)
    requires n <= |log|
    ensures -1 <= r < n
    ensures r >= 0 ==> log[r].device == d && which(log[r])
    ensures forall k :: r < k < n ==> !(log[k].device == d && which(log[k]))
  {
    if n == 0 then -1
    else if log[n - 1].device == d && which(log[n - 1]) then n - 1
    else LastIndex(log, n - 1, d, which)
  }

  /** The first of the first n positions at which a valid source observed device d; n if there is none. */
  function FirstNamed(log: seq<Observation>, n: nat, d: Id): (r: nat)
    requires n <= |log|
    ensures r <= n
    ensures r < n ==> log[r].device == d && log[r].source != 0
    ensures forall k :: 0 <= k < r ==> !(log[k].device == d && log[k].source != 0)
  {
    if n == 0 then 0
    else if FirstNamed(log, n - 1, d) < n - 1 then FirstNamed(log, n - 1, d)
    else if log[n - 1].device == d && log[n - 1].source != 0 then n - 1 else n
  }

  /** The last of the first n positions at which this source observed device d; -1 if there is none. */
  function LastBy(log: seq<Observation>, n: nat, d: Id, source: Id): (r: int)
    requires n <= |log|
    ensures -1 <= r < n
    ensures r >= 0 ==> log[r].device == d && log[r].source == source
    ensures forall k :: r < k < n ==> !(log[k].device == d && log[k].source == source)
  {
    if n == 0 then -1
    else if log[n - 1].device == d && log[n - 1].source == source then n - 1
    else LastBy(log, n - 1, d, source)
  }

  /**
   The authoritative source is the first valid one that observed the device, and its generation is
   the one it last observed under.
   */
  ghost predicate ShowsAuthority(dev: Device, id: Id, log: seq<Observation>, n: nat)
    requires n <= |log|
  {
    var first, last := FirstNamed(log, n, id), LastBy(log, n, id, dev.authoritative);
    && dev.authoritative == (if first < n then log[first].source else 0)
    && last >= 0 && dev.authoritativeGeneration == log[last].sourceGeneration
  }

  /** Position k publishes a capacity of device d. */
  predicate AnnouncesAt(log: seq<Observation>, k: nat, d: Id)
    requires k < |log|
  {
    log[k].device == d && log[k].kind == CAPACITY_PUBLISHED
  }

  /** v is the largest of the bytes last measured and the capacities published since; 0 without any. */
  ghost predicate IsPhysical(v: u64, log: seq<Observation>, n: nat, d: Id)
    requires n <= |log|
  {
    var m := LastIndex(log, n, d, Measures);
    var measured := if m >= 0 then log[m].capacityBytes else 0;
    && measured <= v
    && (forall k :: m < k < n && AnnouncesAt(log, k, d) ==> log[k].capacityBytes <= v)
    && (v == measured || exists k :: m < k < n && AnnouncesAt(log, k, d) && log[k].capacityBytes == v)
  }

  /**
   Samples are the latest 1025 and bands are all of them; published, stranded, fit-qualified and
   available bytes, the vendor reading and the physical state are what the last observation about
   them said, and physical bytes the peak since the last measurement.
   */
  ghost predicate Shows(dev: Device, id: Id, log: seq<Observation>, n: nat)
    requires n <= |log|
  {
    && dev.samples == Last(SamplesOf(log, n, id), 1025)
    && dev.bands == BandsOf(log, n, id)
    && ShowsCapacity(dev.capacity, id, log, n)
    && ShowsReadings(dev, id, log, n)
  }

  ghost predicate ShowsCapacity(c: Capacity, id: Id, log: seq<Observation>, n: nat)
    requires n <= |log|
  {
    var p, f := LastIndex(log, n, id, Publishes), LastIndex(log, n, id, Fragments);
    var q, m := LastIndex(log, n, id, Qualifies), LastIndex(log, n, id, Measures);
    && c.published == (if p >= 0 && log[p].kind == CAPACITY_PUBLISHED then log[p].capacityBytes else 0)
    && c.stranded == (if f >= 0 && log[f].kind == FRAGMENTATION_OBSERVED then log[f].bytes else 0)
    && c.available == (if m >= 0 then log[m].bytes else 0)
    && c.fitQualified == (if q >= 0 then log[q].capacityBytes else 0)
    && IsPhysical(c.physical, log, n, id)
  }

  ghost predicate ShowsReadings(dev: Device, id: Id, log: seq<Observation>, n: nat)
    requires n <= |log|
  {
    var v, s := LastIndex(log, n, id, ReadsVendor), LastIndex(log, n, id, NamesState);
    && (dev.vendorDefined <==> v >= 0)
    && (v >= 0 ==> dev.vendorPercent == log[v].percent && dev.lastSampleTick == log[v].begin)
    && dev.physicalState == (if s >= 0 then log[s].deviceState else UNKNOWN_DEVICE_STATE)
  }

  // ----- one observation -----

  lemma TouchShows(devices: map<Id, Device>, o: Observation)
    ensures var d := Touch(devices, o);
      var was := if o.device in devices then devices[o.device] else NewDevice(o);
      && d.samples == was.samples && d.bands == was.bands && d.capacity == was.capacity
      && d.vendorDefined == was.vendorDefined && d.vendorPercent == was.vendorPercent
      && d.lastSampleTick == was.lastSampleTick
      && d.physicalState == (if NamesState(o) then o.deviceState else was.physicalState)
  {
  }

  lemma SlideSamples(all: seq<SamplePoint>, p: SamplePoint, kept: seq<SamplePoint>)
    requires kept == Last(all, MAX_SAMPLES + 1)
    ensures (if |kept| > MAX_SAMPLES then kept[1..] else kept) + [p] == Last(all + [p], MAX_SAMPLES + 1)
  {
  }

  /** Which kinds of observation move samples and bands. */
  lemma BookLists(d: Device, o: Observation)
    ensures var b := Book(d, o);
      && b.samples == (if IsSample(o) then
           (if |d.samples| > MAX_SAMPLES then d.samples[1..] else d.samples)
           + [SamplePoint(o.begin, o.percent, o.bytes, o.capacityBytes, o.wallTime, o.provenance, o.source)]
           else d.samples)
      && b.bands == (if (o.kind == USEFUL_WORK_SUMMARY || o.kind == EFFICIENCY_SUMMARY) && o.end > o.begin then
           d.bands + [UsefulBand(Interval(o.begin, o.end), o.ratio, o.source, o.sourceGeneration, o.provenance)]
           else d.bands)
  {
    hide KeyOf;
    hide OpenOf;
    hide Close;
  }

  /** Which kinds of observation move the capacity and the vendor reading. */
  lemma BookFields(d: Device, o: Observation)
    ensures var b := Book(d, o);
      && b.capacity.published == (if !Publishes(o) then d.capacity.published
                                  else if o.kind == CAPACITY_PUBLISHED then o.capacityBytes else 0)
      && b.capacity.stranded == (if !Fragments(o) then d.capacity.stranded
                                 else if o.kind == FRAGMENTATION_OBSERVED then o.bytes else 0)
      && b.capacity.available == (if Measures(o) then o.bytes else d.capacity.available)
      && b.capacity.fitQualified == (if Qualifies(o) then o.capacityBytes else d.capacity.fitQualified)
      && b.capacity.physical == (if Measures(o) then o.capacityBytes
                                 else if o.kind == CAPACITY_PUBLISHED then Max(d.capacity.physical, o.capacityBytes)
                                 else d.capacity.physical)
      && b.authoritative == d.authoritative && b.authoritativeGeneration == d.authoritativeGeneration
      && b.vendorDefined == (ReadsVendor(o) || d.vendorDefined)
      && b.vendorPercent == (if ReadsVendor(o) then o.percent else d.vendorPercent)
      && b.lastSampleTick == (if ReadsVendor(o) then o.begin else d.lastSampleTick)
      && b.physicalState == d.physicalState
  {
    hide KeyOf;
    hide OpenOf;
    hide Close;
  }

  lemma LastStep(log: seq<Observation>, n: nat, d: Id, which: Observation -> bool)
    requires n < |log|
    ensures LastIndex(log, n + 1, d, which) ==
      if log[n].device == d && which(log[n]) then n else LastIndex(log, n, d, which)
  {
  }

  lemma BookSamples(d: Device, log: seq<Observation>, n: nat)
    requires n < |log| && d.samples == Last(SamplesOf(log, n, log[n].device), MAX_SAMPLES + 1)
    requires d.bands == BandsOf(log, n, log[n].device)
    ensures var b := Book(d, log[n]);
      && b.samples == Last(SamplesOf(log, n + 1, log[n].device), MAX_SAMPLES + 1)
      && b.bands == BandsOf(log, n + 1, log[n].device)
  {
    hide Last;
    hide Book;
    var o := log[n];
    BookLists(d, o);
    SlideSamples(SamplesOf(log, n, o.device),
      SamplePoint(o.begin, o.percent, o.bytes, o.capacityBytes, o.wallTime, o.provenance, o.source), d.samples);
  }

  lemma BookCapacity(d: Device, log: seq<Observation>, n: nat)
    requires n < |log| && ShowsCapacity(d.capacity, log[n].device, log, n)
    ensures ShowsCapacity(Book(d, log[n]).capacity, log[n].device, log, n + 1)
  {
    hide Book;
    hide LastIndex;
    BookFields(d, log[n]);
    LastStep(log, n, log[n].device, Publishes);
    LastStep(log, n, log[n].device, Fragments);
    LastStep(log, n, log[n].device, Qualifies);
    LastStep(log, n, log[n].device, Measures);
    hide IsPhysical;
    BookPhysical(d, log, n);
  }

  lemma BookPhysical(d: Device, log: seq<Observation>, n: nat)
    requires n < |log| && IsPhysical(d.capacity.physical, log, n, log[n].device)
    ensures IsPhysical(Book(d, log[n]).capacity.physical, log, n + 1, log[n].device)
  {
    hide Book;
    hide LastIndex;
    var o := log[n];
    BookFields(d, o);
    LastStep(log, n, o.device, Measures);
    var m, v := LastIndex(log, n, o.device, Measures), d.capacity.physical;
    if AnnouncesAt(log, n, o.device) {
      assert !Measures(o);
    }
    if exists k :: m < k < n && AnnouncesAt(log, k, o.device) && log[k].capacityBytes == v {
      var k :| m < k < n && AnnouncesAt(log, k, o.device) && log[k].capacityBytes == v;
      assert k < n + 1 && AnnouncesAt(log, k, o.device);
    }
  }

  lemma BookReadings(d: Device, was: Device, log: seq<Observation>, n: nat)
    requires n < |log| && ShowsReadings(was, log[n].device, log, n)
    requires d.vendorDefined == was.vendorDefined && d.vendorPercent == was.vendorPercent
    requires d.lastSampleTick == was.lastSampleTick
    requires d.physicalState == if NamesState(log[n]) then log[n].deviceState else was.physicalState
    ensures ShowsReadings(Book(d, log[n]), log[n].device, log, n + 1)
  {
    hide Book;
    hide LastIndex;
    BookFields(d, log[n]);
    LastStep(log, n, log[n].device, ReadsVendor);
    LastStep(log, n, log[n].device, NamesState);
  }

  lemma ElsewherePhysical(v: u64, id: Id, log: seq<Observation>, n: nat)
    requires n < |log| && IsPhysical(v, log, n, id) && log[n].device != id
    ensures IsPhysical(v, log, n + 1, id)
  {
    hide LastIndex;
    LastStep(log, n, id, Measures);
    var m := LastIndex(log, n, id, Measures);
    if exists k :: m < k < n && AnnouncesAt(log, k, id) && log[k].capacityBytes == v {
      var k :| m < k < n && AnnouncesAt(log, k, id) && log[k].capacityBytes == v;
      assert k < n + 1 && AnnouncesAt(log, k, id);
    }
  }

  lemma ElsewhereCapacity(c: Capacity, id: Id, log: seq<Observation>, n: nat)
    requires n < |log| && ShowsCapacity(c, id, log, n) && log[n].device != id
    ensures ShowsCapacity(c, id, log, n + 1)
  {
    hide LastIndex;
    hide IsPhysical;
    ElsewherePhysical(c.physical, id, log, n);
    LastStep(log, n, id, Publishes);
    LastStep(log, n, id, Fragments);
    LastStep(log, n, id, Qualifies);
    LastStep(log, n, id, Measures);
  }

  lemma ElsewhereReadings(dev: Device, id: Id, log: seq<Observation>, n: nat)
    requires n < |log| && ShowsReadings(dev, id, log, n) && log[n].device != id
    ensures ShowsReadings(dev, id, log, n + 1)
  {
    hide LastIndex;
    LastStep(log, n, id, ReadsVendor);
    LastStep(log, n, id, NamesState);
  }

  lemma ElsewhereShows(dev: Device, id: Id, log: seq<Observation>, n: nat)
    requires n < |log| && Shows(dev, id, log, n) && log[n].device != id
    ensures Shows(dev, id, log, n + 1)
  {
    hide Last;
    hide ShowsCapacity;
    hide ShowsReadings;
    ElsewhereCapacity(dev.capacity, id, log, n);
    ElsewhereReadings(dev, id, log, n);
  }

  // ----- the authoritative source -----

  /** Who is authoritative after an observation: a valid first source stays. */
  lemma BookAuthority(devices: map<Id, Device>, o: Observation)
    ensures var b := Book(Touch(devices, o), o);
      var was := if o.device in devices then devices[o.device] else NewDevice(o);
      var taken := was.authoritative == 0 || o.source == was.authoritative;
      && b.authoritative == (if taken then o.source else was.authoritative)
      && b.authoritativeGeneration == (if taken then o.sourceGeneration else was.authoritativeGeneration)
  {
    BookFields(Touch(devices, o), o);
    hide Book;
  }

  lemma NamedStep(log: seq<Observation>, n: nat, d: Id, source: Id)
    requires n < |log|
    ensures FirstNamed(log, n + 1, d) ==
      if FirstNamed(log, n, d) < n then FirstNamed(log, n, d)
      else if log[n].device == d && log[n].source != 0 then n else n + 1
    ensures LastBy(log, n + 1, d, source) ==
      if log[n].device == d && log[n].source == source then n else LastBy(log, n, d, source)
  {
  }

  /** Every accumulator shows its authority; a device the log has not named has none. */
  ghost predicate AllAuthorities(devices: map<Id, Device>, log: seq<Observation>, n: nat)
    requires n <= |log|
  {
    && 0 !in devices
    && (forall id :: id in devices ==> ShowsAuthority(devices[id], id, log, n))
    && (forall k :: 0 <= k < n && log[k].device != 0 ==> log[k].device in devices)
  }

  lemma AccumulateAuthorities(devices: map<Id, Device>, log: seq<Observation>, n: nat)
    requires n < |log| && AllAuthorities(devices, log, n)
    ensures AllAuthorities(Accumulate(devices, log[n]), log, n + 1)
  {
    hide Touch;
    hide Book;
    hide ShowsAuthority;
    forall id | id in devices && (id != log[n].device || log[n].device == 0)
      ensures ShowsAuthority(devices[id], id, log, n + 1)
    {
      ElsewhereAuthority(devices[id], id, log, n);
    }
    if log[n].device != 0 {
      HereAuthority(devices, log, n);
    }
  }

  lemma ElsewhereAuthority(dev: Device, id: Id, log: seq<Observation>, n: nat)
    requires n < |log| && ShowsAuthority(dev, id, log, n) && log[n].device != id
    ensures ShowsAuthority(dev, id, log, n + 1)
  {
    hide FirstNamed;
    hide LastBy;
    NamedStep(log, n, id, dev.authoritative);
  }

  lemma HereAuthority(devices: map<Id, Device>, log: seq<Observation>, n: nat)
    requires n < |log| && AllAuthorities(devices, log, n) && log[n].device != 0
    ensures ShowsAuthority(Book(Touch(devices, log[n]), log[n]), log[n].device, log, n + 1)
  {
    hide Touch;
    hide Book;
    hide FirstNamed;
    hide LastBy;
    var o := log[n];
    var b := Book(Touch(devices, o), o);
    BookAuthority(devices, o);
    NamedStep(log, n, o.device, b.authoritative);
    if o.device !in devices {
      assert FirstNamed(log, n, o.device) == n;
    }
  }

  lemma {:induction false} FoldAuthorities(log: seq<Observation>, n: nat)
    requires n <= |log|
    ensures AllAuthorities(DevicesOf(log, n), log, n)
  {
    hide Accumulate;
    hide ShowsAuthority;
    if n > 0 {
      FoldAuthorities(log, n - 1);
      AccumulateAuthorities(DevicesOf(log, n - 1), log, n - 1);
    }
  }

  // ----- the whole accumulator -----

  /** Every accumulator shows its part of the log; a device the log has not named has none. */
  ghost predicate AllShow(devices: map<Id, Device>, log: seq<Observation>, n: nat)
    requires n <= |log|
  {
    && 0 !in devices
    && (forall id :: id in devices ==> Shows(devices[id], id, log, n))
    && (forall k :: 0 <= k < n && log[k].device != 0 ==> log[k].device in devices)
  }

  lemma {:induction false} NothingNamed(id: Id, log: seq<Observation>, n: nat, o: Observation)
    requires n <= |log| && (forall k :: 0 <= k < n ==> log[k].device != id)
    ensures Shows(NewDevice(o), id, log, n)
  {
    if n > 0 {
      NothingNamed(id, log, n - 1, o);
      ElsewhereShows(NewDevice(o), id, log, n - 1);
    }
  }

  lemma AccumulateShows(devices: map<Id, Device>, log: seq<Observation>, n: nat)
    requires n < |log| && AllShow(devices, log, n)
    ensures AllShow(Accumulate(devices, log[n]), log, n + 1)
  {
    hide Touch;
    hide Book;
    hide NewDevice;
    hide Shows;
    var o := log[n];
    forall id | id in devices && id != o.device
      ensures Shows(devices[id], id, log, n + 1)
    {
      ElsewhereShows(devices[id], id, log, n);
    }
    if o.device != 0 {
      if o.device !in devices {
        NothingNamed(o.device, log, n, o);
      }
      BookShows(devices, if o.device in devices then devices[o.device] else NewDevice(o), log, n);
    }
  }

  lemma BookShows(devices: map<Id, Device>, was: Device, log: seq<Observation>, n: nat)
    requires n < |log| && Shows(was, log[n].device, log, n)
    requires was == if log[n].device in devices then devices[log[n].device] else NewDevice(log[n])
    ensures Shows(Book(Touch(devices, log[n]), log[n]), log[n].device, log, n + 1)
  {
    TouchShows(devices, log[n]);
    var d := Touch(devices, log[n]);
    BookSamples(d, log, n);
    BookCapacity(d, log, n);
    BookReadings(d, was, log, n);
    hide Touch;
    hide Book;
    hide NewDevice;
    hide Last;
    hide SamplesOf;
    hide BandsOf;
    hide ShowsCapacity;
    hide ShowsReadings;
  }

  lemma {:induction false} FoldShows(log: seq<Observation>, n: nat)
    requires n <= |log|
    ensures AllShow(DevicesOf(log, n), log, n)
  {
    hide Accumulate;
    hide Shows;
    if n > 0 {
      FoldShows(log, n - 1);
      AccumulateShows(DevicesOf(log, n - 1), log, n - 1);
    }
  }

  /** A valid device has an accumulator exactly when an observation of it was accepted. */
  lemma {:induction false} AccumulatorsAreNamed(log: seq<Observation>, n: nat, d: Id)
    requires n <= |log| && d != 0
    ensures d in DevicesOf(log, n) <==> exists k :: 0 <= k < n && log[k].device == d
  {
    hide Touch;
    hide Book;
    if n > 0 {
      AccumulatorsAreNamed(log, n - 1, d);
    }
  }

  /** In every reachable state every device shows what the accepted log said about it. */
  lemma {:induction false} DevicesShowTheLog(limits: Limits, epoch: u64, generation: u64, ops: seq<Op>, i: nat, d: Id)
    requires i <= |ops|
    requires d in StateAt(Init(limits, epoch, generation), ops, i).devices
    ensures var s0 := Init(limits, epoch, generation);
      var dev, log := StateAt(s0, ops, i).devices[d], LogAt(s0, ops, i);
      Shows(dev, d, log, |log|) && ShowsAuthority(dev, d, log, |log|)
  {
    hide StateAt;
    hide LogAt;
    hide DevicesOf;
    hide WellFormed;
    hide Shows;
    hide ShowsAuthority;
    var log := LogAt(Init(limits, epoch, generation), ops, i);
    RunFaithful(limits, epoch, generation, ops, i);
    FoldShows(log, |log|);
    FoldAuthorities(log, |log|);
  }
}
