# Utilization evidence engine: verified model

A Dafny model of the evidence engine of Utilization Observatory, with the record codec, checksum,
digest and interval arithmetic it rests on. `dafny verify dfyconfig.toml` checks the whole project.

## What it models

- `Words`, `Bits`, `Folds`, `Intervals`, `Sorting`: bounded integers and their little-endian bytes, words as
  bits, byte folds, half-open tick intervals and the set of ticks they cover, sorting.
- `Sweep`, `Windows`, `WindowTheorems`, `Timeline`: sort-and-sweep unions, the two-pointer intersection, the
  device window, the gap, the workload view and the merged timeline. The simple reading is always a set of ticks.
- `Observations`, `Doubles`, `Codec`, `RecordLayout`, `Buffers`, `Crc32c`, `FileFormat`, `FileTheorems`: the 49-field
  record, the numbers in it, its 308-byte form, CRC32C (section 12.1 of RFC 3720), the saved file and its strict parser.
- `Digest`, `Canonical`: the FNV-1a fold and the canonical digest of the history.
- `Engine`: what one ingest or lifecycle call does, as functions on values. `Machine`: load, replay and runs.
- `Observatory`: the object whose fields the calls update in place, each method proved against `Engine` and `Machine`.
- `Reachability`, `LogReading`, `EndToEnd`, `LogViews`, `DeviceReading`, `Generations`, `DedupWindow`, `Conservation`,
  `Authority`, `Interleaving`, `Persistence`, `Reloads`: what holds over every run. `Counterexamples`: three runs that
  show where a natural expectation fails.

A run is a sequence of atomic calls (`Machine.Op`), because every public call holds one exclusive lock. The accepted
log (`Machine.LogAt`) lists the accepted observations; an effective load replaces it by what the replay accepted.

## Where code and documentation differ

The model follows the code. The repository's own README says that corruption is rejected and that replay reconstructs
identical timelines; the proofs give the exact conditions. The epoch and generation fields of a file are not covered
by any check (`FileTheorems.DamageIsDetected`). A replay is complete exactly when no id repeats within the dedup
window (`Persistence.ReplaySucceeds`); a reachable observatory can miss that (`Counterexamples.OwnFileRefused`), but
only after a malformed observation (`Persistence.OwnFileLoads`). After a complete replay a window's timeline is
identical, up to the order of entries its sort cannot tell apart, if and only if no closed interval it shows began in
the part the bounded history had dropped (`Reloads.TimelinesReturn`, per device `Reloads.EventsReturn`; the loss is
reachable, `Counterexamples.TimelineCanBeLost`), and totals are those of the saved history, with an exact condition
for being unchanged (`Reloads.TotalsReturn`). No replay invents an event (`Persistence.ReloadAddsNothing`). The
canonical digest is said to leave out wall-clock noise, but the wall-clock time is part of every record it covers and
one changed byte of it changes the digest (`Canonical.WallTimeIsDigested`). The check of `uo validate-state` is not an
invariant (`WindowTheorems.CheckHoldsEverywhere`), and fails at the window the tool asks for
(`Counterexamples.CommandLineCheckCanFail`).

## Modelling choices

- uint64 values are integers below 2^64 and counters and the epoch wrap explicitly. A tick total that is assigned to
  a `Tick` is thereby proved not to wrap.
- Enumerations are the raw byte of the record; `ratio` and `percent` are IEEE-754 bit patterns, and the malformed
  check is stated on the patterns.
- `std::sort` is a sort whose outcome is only known to be ordered and a permutation, so ties may come in any order.
- The iteration order of an unordered map is a parameter of the queries that walk one.
- Shifts and ors that assemble a word from bytes are written as multiplication and addition of disjoint bytes.
- `save` and `load` work on byte sequences; the magic is a prefix.

## Model

| member | source | states |
|---|---|---|
| Intervals.OverlapDuration | include/uo/interval.hpp:28-38 | The intersection of any two intervals, inverted ones included, is as long as the number of ticks both contain, and empty exactly when they share none |
| Sweep.MergeIntervals | src/observatory.cpp:246-258 | The merged list is sorted, non-empty piece by piece, never overlapping (touching allowed), and covers exactly the ticks of the input |
| Sweep.UnionDuration | src/observatory.cpp:260-264 | The total is the number of ticks lying in at least one interval and never leaves the uint64 range |
| Sweep.IntersectUnionDuration | src/observatory.cpp:266-278 | The two-pointer walk terminates with exactly the number of ticks lying in both unions, for any unsorted, overlapping, empty or inverted input, without wrapping |
| Sweep.UnionIgnoresOrderAndRepetition | src/observatory.cpp:246-278 | Union and intersection measures depend only on which intervals occur, and the intersection is symmetric |
| Sweep.SeparatedTotal | src/observatory.cpp:260-264 | The total of a merged list is at most its last end minus its first begin, which is why it cannot wrap |
| Windows.ComputeWindow | src/observatory.cpp:806-861 | Each of the twenty components equals the number of window ticks at which an event of its categories is active; overlap counts ticks that are both busy and transferring |
| Windows.ComputeGap | src/observatory.cpp:876-908 | Exact numerators and denominators of the gap: no accumulator means the whole window unknown, an empty window means no ratio, otherwise unknown is the span less the ticks any event covers |
| LogViews.GapReadsTheLog | src/observatory.cpp:876-908 | In every reachable state each ratio of the gap has the ticks the accepted log shows over the span; a device nothing was accepted about has only the unknown ratio, one |
| WindowTheorems.TumblingWindowsAdd | src/observatory.cpp:806-861 | For a <= b <= c every component of [a,c), overlap included, is the sum of that component over [a,b) and [b,c) |
| WindowTheorems.WindowsGrow | src/observatory.cpp:806-861 | No component shrinks when events are added or the window is widened |
| WindowTheorems.AccountingBounds | src/observatory.cpp:812-861 | useful <= busy <= span; busy <= sum of its five parts; busy + transfer - span <= overlap <= min(busy, transfer) |
| WindowTheorems.UnknownBalances | src/observatory.cpp:901-908 | Accounted plus unknown is exactly the span, so the clamp at zero never acts, and busy plus unknown never exceeds the span |
| WindowTheorems.CommandLineCheck | cli/main.cpp:140-147 | non_useful + overhead + retry <= busy follows when the three are pairwise disjoint in the window, and in general holds exactly when the double counted ticks do not outnumber the other busy ticks |
| WindowTheorems.CheckHoldsEverywhere | cli/main.cpp:140-147 | The check passes in every window if and only if no two of non-useful, overhead and retry execution are ever active at one tick |
| Counterexamples.CommandLineCheckCanFail | cli/main.cpp:68-147 | After a run of four accepted observations the check fails at the one question the tool asks, device 1 in the window [0, 2000); any observatory accepts the file saved then, as the tool does with `--file`, and fails the check too |
| LogReading.OpenIndexIsPending | src/observatory.cpp:532-560 | The entry open under a key is the last accepted begin of that key that no begin or end of the key followed |
| LogReading.KeysAgree | src/observatory.cpp:534-546 | Two observations have one interval key if and only if source, device, workload, attempt, reservation, residency, transfer, recovery and allocation agree and they are of one type or the two ends of one of the seven couples |
| LogReading.PendingIsPair | src/observatory.cpp:532-560 | What an end finds open under its key is the begin of its pair: a couple about the same thing, field by field, with nothing in between that begins or ends the same |
| LogReading.FoldReads | src/observatory.cpp:532-560 | Folding the accepted log gives, per device, open entries that are exactly the pending begins and events that are exactly the closed pairs in closing order |
| LogReading.EventsArePairs | src/observatory.cpp:542-559 | An event exists if and only if the log holds a begin and an end of one couple with the same nine identities and no begin or end of the same between them; everything but span and category is the begin's |
| LogReading.CloseIsPair | src/observatory.cpp:534-556 | The event has span [begin, max(end, begin)), the category of the end, or the begin's state when the end leaves it unknown, and source, workload, generations, provenance, observation, ratio and bytes of the begin |
| Observations.IntervalTypes | src/observatory.cpp:152-192 | The begin types are 2, 4, ... 14, the end types 3, 5, ... 15, and an end pairs with the type before it |
| Observations.CategoryTable | src/observatory.cpp:194-225 | For every category, exactly which types and classifications give it when no state is named; a named state always wins |
| Observations.Numbering | include/uo/model.hpp:58-95 | The constants of the model are the positions of the enumerators they are named after |
| Doubles.WellFormedNumbers | src/observatory.cpp:498-500 | The malformed check on IEEE-754 patterns accepts exactly finite ratios in [0, 1] and percents in [0, 100], and ticks that are not inverted |
| EndToEnd.WindowsReadTheLog | src/observatory.cpp:407-641 | After any run of ingests, lifecycle calls, epoch advances and loads, every component of every device window is the number of ticks that pairs of the accepted log cover, pairs being told by their fields |
| EndToEnd.EvidenceOnlyAccumulates | src/observatory.cpp:491-560 | Between loads no window component ever decreases and the unknown part of the gap never increases |
| EndToEnd.RejectionChangesNothing | src/observatory.cpp:410-503 | A rejected ingest, whatever the reason, leaves every window, every gap and the history as they were |
| EndToEnd.DevicesBalance | src/observatory.cpp:532-560 | Per device, accepted begins = events + open + overwritten, and accepted ends = events + orphans, in every reachable state |
| DeviceReading.DevicesShowTheLog | src/observatory.cpp:505-621 | Authority is the first valid source of the device, under the generation it last used; samples are the latest 1025, bands all summaries of positive length; published, stranded, fit-qualified and available bytes, vendor reading and physical state are what the last observation about them said, and physical bytes the larger of the last measurement and what was published since |
| Reachability.IngestFrame | src/observatory.cpp:407-503 | An ingest never changes limits, epoch or generation; one that is not accepted never changes devices, history, accepted or dropped, although it may touch sources, generations and the dedup window |
| Reachability.IngestRemembers | src/observatory.cpp:491-503 | Exactly accepted and malformed observations enter the dedup window, and neither can carry an id already in it |
| Reachability.RunFaithful | src/observatory.cpp:622-641 | In every reachable state the accumulators are the fold of the accepted log, the history is its longest suffix within the bound, and accepted and dropped count the log and the missing prefix |
| Generations.IngestRaises | src/observatory.cpp:460-489 | No ingest, accepted or not, lowers a device, workload or evidence generation; an accepted one makes its own generations current |
| Generations.RunGenerational | src/observatory.cpp:460-489 | In every reachable state, also after a load that stopped half-way, the accepted log is non-decreasing in generation per valid identity and bounded by the map |
| Generations.MapsNeverDecrease | src/observatory.cpp:460-489 | Between loads no entry of the three generation maps disappears or goes down |
| DedupWindow.RunWindow | src/observatory.cpp:337-346 | Set and queue always hold the same distinct ids, namely the last max(1, capacity) remembered ones |
| DedupWindow.EqualIdsAreFarApart | src/observatory.cpp:491-496 | Between two accepted observations with one id at least max(1, capacity) ids were remembered, the last of which are that many pairwise distinct ones other than the repeated id |
| Conservation.IngestCountsOnce | src/observatory.cpp:407-641 | Each ingest moves exactly one of the counters accepted, rejected, duplicates and stale, by one, determined by its answer |
| Conservation.RunAnswered | src/observatory.cpp:1240-1254 | The four counters add up, modulo 2^64, to the ingest attempts since construction or the last effective load |
| Conservation.HistoryIsAcceptedMinusDropped | src/observatory.cpp:632-641 | The history never exceeds its bound and its size is accepted minus dropped, modulo 2^64 |
| Conservation.RunCountsLinks | src/observatory.cpp:379-398 | Since the last effective load, disconnects counts the calls that took a connected source down, and reconnects those, registrations apart, that brought a known one back, modulo 2^64 |
| Authority.AuthorityChangesOnlyByReset | src/observatory.cpp:361-458 | Between two accepted observations of one source with different generation or boot lies a disconnect, a registration or a load |
| Authority.ConnectedSourceRefusesOthers | src/observatory.cpp:434-452 | At the current epoch a connected source refuses as stale authority exactly the observations of another generation or boot, newer ones too |
| Authority.LoadedAuthorities | src/observatory.cpp:428-432 | After a load that parses, a source is known if and only if a record the replay worked on names it, the refused one included; it carries generation and boot of its last such record, and is disconnected |
| Authority.LoadedSourcesNeedRevalidation | src/observatory.cpp:434-457 | After a load the authority of the last record of a source is refused as disconnected, and any other generation or boot passes the authority check and takes the source over |
| Authority.CorruptFileChangesNothing | src/observatory.cpp:1196-1228 | A load answers corrupt if and only if the file does not parse, and then nothing has changed |
| Authority.IngestAnswers | src/observatory.cpp:407-501 | What a live ingest answers and in which order it looks: epoch, disconnected source, stale authority, older generation, duplicate, malformed, accepted |
| Authority.IngestSources | src/observatory.cpp:415-458 | A refusal for authority changes no source; an observation that passes leaves its source connected under its own generation and boot, even when refused later; no other source is touched |
| Authority.LifecycleMoves | src/observatory.cpp:367-400 | What register, connect and disconnect leave of every source; connecting or disconnecting an unknown one is invalid and changes nothing |
| Authority.DisconnectedUntilRevived | src/observatory.cpp:390-458 | After the disconnect of a known source, until a call brings it back, its old authority is answered as disconnected at the current epoch and the first other one takes the source over |
| Authority.ConnectedUntilReset | src/observatory.cpp:367-452 | After a registration or connect, until a disconnect, registration or load, exactly the established authority passes at the current epoch and any other is stale |
| Authority.AcceptedEpochsRise | src/observatory.cpp:361-365 | As long as the epoch does not wrap, accepted observations carry non-decreasing coordinator epochs |
| Authority.EpochCountsAdvances | src/observatory.cpp:361-365 | The running epoch is the initial one plus the advances, modulo 2^64; nothing else moves it and loads keep it |
| Interleaving.StreamsAnswerAlone | src/observatory.cpp:402-641 | Among streams with disjoint identities and unused observation ids, every call is answered exactly as if its stream ran alone, seeing the same epoch advances |
| Interleaving.StreamsShowAlone | src/observatory.cpp:361-641 | At every moment of an interleaved run the devices of a stream, with all their windows and gaps, are those its calls and the epoch advances alone would have left |
| Interleaving.InterleavingsAgree | src/observatory.cpp:361-641 | Any two interleavings with the same calls of a stream and the same epoch advances among them leave its devices, windows and gaps identical |
| Codec.DecodeInvertsEncode | src/observatory.cpp:660-799 | Decoding the 308-byte record of any observation gives it back, field for field |
| Codec.EncodeInvertsDecode | src/codec.cpp:36-84 | Every 308-byte string is the record of one observation, the decoded one, and of no other |
| RecordLayout.StampLies | src/observatory.cpp:660-710 | The fields identity, generation, epoch, type and ticks lie at bytes 0 to 40 of the record, little-endian, in this order |
| RecordLayout.OriginLies | src/observatory.cpp:660-710 | The fields source, device and host with generations lie at bytes 41 to 88 of the record, little-endian, in this order |
| RecordLayout.WorkLies | src/observatory.cpp:660-710 | The fields worker, boot, workload and request lie at bytes 89 to 128 of the record, little-endian, in this order |
| RecordLayout.HoldingLies | src/observatory.cpp:660-710 | The fields attempt, reservation and residency lie at bytes 129 to 176 of the record, little-endian, in this order |
| RecordLayout.MovementLies | src/observatory.cpp:660-710 | The fields allocation, transfer and recovery lie at bytes 177 to 224 of the record, little-endian, in this order |
| RecordLayout.EvidenceLies | src/observatory.cpp:660-710 | The fields fragmentation and evidence generations lie at bytes 225 to 248 of the record, little-endian, in this order |
| RecordLayout.LabelLies | src/observatory.cpp:660-710 | The fields provenance, evidence label and semantics lie at bytes 249 to 251 of the record, little-endian, in this order |
| RecordLayout.ReasonLies | src/observatory.cpp:660-710 | The fields state, reasons and classification lie at bytes 252 to 255 of the record, little-endian, in this order |
| RecordLayout.ConditionLies | src/observatory.cpp:660-710 | The fields correlation, direction and states lie at bytes 256 to 259 of the record, little-endian, in this order |
| RecordLayout.MeasureLies | src/observatory.cpp:660-710 | The fields ratio, percent and bytes lie at bytes 260 to 283 of the record, little-endian, in this order |
| RecordLayout.AmountLies | src/observatory.cpp:660-710 | The fields capacity, count and wall-clock time, the last as two's complement lie at bytes 284 to 307 of the record, little-endian, in this order |
| Buffers.EncodeObservation | src/observatory.cpp:645-710 | Appending field by field extends the buffer by exactly the record |
| Buffers.DecodeObservation | src/observatory.cpp:712-799 | The reader accepts exactly the strings of record size and returns the observation they denote |
| FileFormat.SaveFile | src/observatory.cpp:1150-1170 | The bytes written are magic, version, epoch, generation, count and one checksummed frame for each observation |
| FileFormat.LoadFile | src/observatory.cpp:1196-1228 | The parser with all its early exits answers exactly the intact files, and with the records in them |
| FileTheorems.ParserIsExactInverse | src/observatory.cpp:1203-1228 | A file is accepted with result obs if and only if it is the serialization of obs under some epoch and generation |
| FileTheorems.FileLayout | src/observatory.cpp:1150-1160 | Magic, version 1, epoch, generation and count lie at bytes 0, 4, 8, 16 and 24, and the file has 32 + 316 n bytes |
| FileTheorems.RecordLies | src/observatory.cpp:1161-1170 | Record i lies at byte 32 + 316 i: length 308, the record, its checksum |
| FileTheorems.NoExtension | src/observatory.cpp:1228 | No proper extension of an accepted file is accepted |
| FileTheorems.NoPrefix | src/observatory.cpp:1203-1228 | No proper prefix of an accepted file is accepted |
| FileTheorems.DamageIsDetected | src/observatory.cpp:1196-1228 | One changed byte makes the parser refuse the file if and only if it lies outside bytes 8 to 23, the unchecked epoch and generation |
| FileTheorems.BurstIsDetected | src/observatory.cpp:1196-1228 | Damage to an accepted file within four consecutive bytes anywhere (magic, header, length, payload, checksum, or across them) makes the parser refuse it if and only if some changed byte lies outside bytes 8 to 23; otherwise the same records are read |
| Crc32c.ComputeChecksum | include/uo/crc.hpp:13-27 | The nested loops compute the checksum the burst theorems are about |
| Crc32c.PolynomialIsTheConstant | include/uo/crc.hpp:19 | The modelled tap positions are the bits of 0x82F63B78 |
| Crc32c.SeedIsTheConstant | include/uo/crc.hpp:25-27 | The all-ones register used as seed and as final xor is 0xFFFFFFFF |
| Crc32c.FeedPacked | include/uo/crc.hpp:13-23 | Feeding up to four bytes equals xoring them in side by side and then doing all the rounds (xor-linearity of the register) |
| Crc32c.BurstDetected | include/uo/crc.hpp:13-27 | Replacing at most four consecutive bytes keeps the checksum if and only if they are the same bytes |
| Crc32c.ResidueDecides | src/observatory.cpp:1215-1223 | Four stored bytes are the checksum of the data before them if and only if feeding data and stored bytes together leaves one fixed register, which is why a burst across payload and checksum is noticed |
| Persistence.ReplaySucceeds | src/observatory.cpp:1251-1254 | A replay of well-formed observations whose generations never go back, under any history bound, accepts every record if and only if no id repeats within the dedup window |
| Persistence.SavedStateLoads | src/observatory.cpp:1144-1262 | Loading a saved reachable state into any observatory succeeds under exactly that condition; then all its evidence is restored, and of its history the longest suffix within the loader's bound, the running epoch is kept and every source disconnected |
| Persistence.RoundTripRestores | src/observatory.cpp:1281-1300 | With pairwise distinct history ids and a history bound no smaller, in particular under the same limits, save then load always succeeds with the same history and digest, and restores every accumulator if nothing was ever dropped |
| Persistence.OwnFileLoads | src/observatory.cpp:491-503 | As long as no ingest, live or in a load, was refused as malformed, every observatory whose dedup window is no larger loads what this one saves |
| Persistence.ReloadAddsNothing | src/observatory.cpp:1240-1262 | However much was dropped, and even when the replay stops half-way, every event of the loader is one of the saved observatory, no window component is larger, and the unknown part of the gap is no smaller |
| Reloads.EventsReturn | src/observatory.cpp:1240-1262 | After a successful load a device has exactly the events whose begin the file still held; these are all of them if and only if no closed interval of the device began in the dropped part of the log |
| Reloads.TimelinesReturn | src/observatory.cpp:1046-1075 | Before saving and after a successful load, a window's timelines have the same entries, whatever the map order, if and only if no closed interval the window shows began in the dropped part; with distinguishable entries that is exactly when they are identical |
| Reloads.TotalsReturn | src/observatory.cpp:806-861 | After a successful load every window component counts the ticks the saved history shows; the time over any set of categories is unchanged if and only if every tick the whole log shows in them is shown by the saved history too |
| Reloads.SourcesReturn | src/observatory.cpp:1251-1260 | After a successful load the sources are those the saved history names, each under the authority of its last record there, which is refused as disconnected while any other passes |
| Reloads.SavedStamp | src/observatory.cpp:1150-1160 | A saved file carries the running epoch, the configured generation and the number of kept observations at bytes 8, 16 and 24 |
| Counterexamples.OwnFileRefused | src/observatory.cpp:491-503 | A reachable observatory whose own saved file its load refuses, because a malformed id had pushed an accepted id out of the window |
| Counterexamples.TimelineCanBeLost | src/observatory.cpp:632-636 | A run of two accepted observations under a history bound of one shows an interval; any observatory loads its file and then shows none |
| Canonical.CanonicalDigest | src/observatory.cpp:1264-1279 | The value is the digest of the encoded history in some canonical order |
| Canonical.DigestOfOrderedHistory | src/observatory.cpp:1267-1278 | A value is a digest of the history if and only if it is the FNV-1a fold of its records in ascending (begin, source, id) order |
| Canonical.DigestIgnoresOrder | src/observatory.cpp:1264-1279 | Histories that are permutations of each other with distinct (begin, source, id) keys have one and the same digest |
| Canonical.ChangedStreamChangesDigest | include/uo/digest.hpp:20-26 | One changed byte anywhere in the canonical stream changes the digest |
| Canonical.WallTimeIsDigested | src/observatory.cpp:709 | Histories with distinct (begin, source, id) keys that differ in one byte of one observation's wall-clock time never have the same digest |
| Digest.Unmultiply | include/uo/digest.hpp:24 | Multiplication by the odd FNV prime modulo 2^64 can be undone |
| Digest.Digest64.Put | include/uo/digest.hpp:20-26 | The loop updates the running hash to the fold of the bytes |
| Digest.DigestOfOneByte | include/uo/digest.hpp:20-26 | A concrete value: the byte is xored into the offset basis first, and the prime multiplied after |
| Timeline.ComputeTimeline | src/observatory.cpp:1046-1075 | The result is a sorted permutation of the shown events of all devices |
| LogViews.TimelineReadsTheLog | src/observatory.cpp:1046-1075 | In every reachable state and for every map order a timeline ascends by begin, device, source and observation, and holds an entry exactly as often as the accepted log has a pair of that device that makes it and has a tick in the window or begins in it; all but span and state are the begin's |
| Timeline.EntriesListShown | src/observatory.cpp:1050-1066 | An entry is listed exactly when its device closed such an event and the event has a tick in the window or begins in it |
| Timeline.EveryMapHasAnOrder | src/observatory.cpp:1050-1051 | Every device map has an iteration order, so the statements about orders are never empty |
| Timeline.TimelineIgnoresMapOrder | src/observatory.cpp:1068-1073 | When begin, device, source and observation tell entries apart, the timeline does not depend on map iteration order |
| Timeline.ComputeWorkload | src/observatory.cpp:1014-1044 | Each workload component counts the window ticks covered by the workload's events of its categories on any device |
| LogViews.WorkloadReadsTheLog | src/observatory.cpp:1014-1044 | In every reachable state and for every map order each workload component is the number of window ticks that pairs of that workload in the accepted log cover, on any device |
| Timeline.WorkloadIgnoresMapOrder | src/observatory.cpp:1014-1044 | The workload view does not depend on map order; its parts are at most the active time, which is at most their sum and the span |
| Observatory.UtilizationObservatory.Ingest | src/observatory.cpp:402-405 | A live ingest moves the object exactly as the state machine says and answers the same status |
| Observatory.UtilizationObservatory.IngestLocked | src/observatory.cpp:407-641 | The in-place checks and updates, in source order, realise the ingest step in live and historical mode |
| Observatory.UtilizationObservatory.MarkSourceDisconnected | src/observatory.cpp:390-400 | Realises the disconnect step, unknown sources included |
| Observatory.UtilizationObservatory.Load | src/observatory.cpp:1196-1262 | A file that does not parse changes nothing; otherwise state is cleared, replayed until the first refusal, and sources are disconnected |
| Observatory.UtilizationObservatory.DeviceWindow | src/observatory.cpp:865-874 | The query answers the covered-tick reading of the device's events, all zero without an accumulator |
| Sorting.SortedIsUnique | src/observatory.cpp:1267-1271 | Two sorted permutations of one list are equal when the comparison never ties different members |

## Left out

- Files, temporary names and rename: `save` and `load` are functions on bytes, and write errors are not modelled.
- Mutexes and atomics: every call is one atomic step, and concurrency is the interleaving of steps.
- Clocks, freshness and `snapshot`: comparisons of one source's last tick with thresholds.
- `explain`, the gap's contributor ranking and its percentage points: floating-point presentation of numerators that are modelled.
- Rounding of durations to double above 2^53: ratios are exact integers here.
- Backend capabilities, source names, host, worker, wall-clock and error fields of a source: display only, not persisted.
- Per-source counters of a source: no call reads them.
- Persistence and backend error counters: they count file failures, which are outside the model.
- Hashing of interval keys and identities: maps are Dafny maps.
- Limits the engine stores but never enforces (sources, devices, open intervals, events per query), and the checked arithmetic header it does not call.
- The TCP protocol, CUDA and NVML programs, command line output, examples and benchmarks.
