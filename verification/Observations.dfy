/** The observation record and the pure classification of its types. */
module Observations {
  import opened Words

  /** Identities and generations are opaque 64-bit words; zero is the invalid identity. */
  type Id = u64

  /**
   One observation. Enumerations are the raw byte the persisted form keeps, so a record that
   was loaded may hold a byte no enumerator has. `ratio` and `percent` are IEEE-754 bit patterns.
   */
  datatype Observation = Observation(
    id: Id, generation: u64, coordinatorEpoch: u64, kind: u8, begin: u64, end: u64,
    source: Id, sourceGeneration: u64, device: Id, deviceGeneration: u64,
    host: Id, hostGeneration: u64, worker: Id, workerBoot: u64,
    workload: Id, workloadGeneration: u64, request: Id, attempt: Id, attemptGeneration: u64,
    reservation: Id, reservationGeneration: u64, residency: Id, residencyGeneration: u64,
    allocation: Id, allocationGeneration: u64, transfer: Id, transferGeneration: u64,
    recovery: Id, recoveryGeneration: u64, fragmentationGeneration: u64,
    evidence: Id, evidenceGeneration: u64,
    provenance: u8, evidenceLabel: u8, semantics: u8, state: u8, busyReason: u8, idleReason: u8,
    classification: u8, correlation: u8, direction: u8, deviceState: u8, workloadState: u8,
    ratio: u64, percent: u64, bytes: u64, capacityBytes: u64, count: u64, wallTime: i64)

  // ----- observation types -----

  const DEVICE_SAMPLE: u8 := 0
  const WORKLOAD_SAMPLE: u8 := 1
  const EXECUTION_BEGIN: u8 := 2
  const EXECUTION_END: u8 := 3
  const TRANSFER_BEGIN: u8 := 4
  const TRANSFER_END: u8 := 5
  const RESERVATION_BEGIN: u8 := 6
  const RESERVATION_END: u8 := 7
  const RESIDENCY_BEGIN: u8 := 8
  const RESIDENCY_END: u8 := 9
  const WAIT_BEGIN: u8 := 10
  const WAIT_END: u8 := 11
  const RECOVERY_BEGIN: u8 := 12
  const RECOVERY_END: u8 := 13
  const ATTEMPT_BEGIN: u8 := 14
  const ATTEMPT_END: u8 := 15
  const FRAGMENTATION_OBSERVED: u8 := 20
  const FRAGMENTATION_CLEARED: u8 := 21
  const CAPACITY_PUBLISHED: u8 := 22
  const CAPACITY_INVALIDATED: u8 := 23
  const USEFUL_WORK_SUMMARY: u8 := 24
  const EFFICIENCY_SUMMARY: u8 := 25
  const MEMORY_SAMPLE: u8 := 28

  predicate IsBegin(kind: u8) {
    kind in {EXECUTION_BEGIN, TRANSFER_BEGIN, RESERVATION_BEGIN, RESIDENCY_BEGIN,
             WAIT_BEGIN, RECOVERY_BEGIN, ATTEMPT_BEGIN}
  }

  predicate IsEnd(kind: u8) {
    kind in {EXECUTION_END, TRANSFER_END, RESERVATION_END, RESIDENCY_END,
             WAIT_END, RECOVERY_END, ATTEMPT_END}
  }

  /** The begin type an end type closes. */
  function PairKind(kind: u8): (k: u8)
    ensures IsEnd(kind) ==> IsBegin(k)
    ensures !IsEnd(kind) ==> k == kind
  {
    if kind == EXECUTION_END then EXECUTION_BEGIN
    else if kind == TRANSFER_END then TRANSFER_BEGIN
    else if kind == RESERVATION_END then RESERVATION_BEGIN
    else if kind == RESIDENCY_END then RESIDENCY_BEGIN
    else if kind == WAIT_END then WAIT_BEGIN
    else if kind == RECOVERY_END then RECOVERY_BEGIN
    else if kind == ATTEMPT_END then ATTEMPT_BEGIN
    else kind
  }

  // ----- state categories -----

  const USEFUL_EXECUTION: u8 := 0
  const NON_USEFUL_EXECUTION: u8 := 1
  const NECESSARY_OVERHEAD: u8 := 2
  const TRANSFER_ACTIVE: u8 := 3
  const MEMORY_BOUND: u8 := 4
  const WAITING_QUEUE: u8 := 5
  const WAITING_DEPENDENCY: u8 := 6
  const WAITING_TRANSFER: u8 := 7
  const WAITING_MEMORY: u8 := 8
  const WAITING_RECOVERY: u8 := 9
  const RETRY_EXECUTION: u8 := 10
  const RESERVED_IDLE: u8 := 11
  const RESIDENCY_IDLE: u8 := 12
  const FRAGMENTATION_STRANDED: u8 := 13
  const AUTHORITY_FENCED: u8 := 14
  const DEVICE_IDLE: u8 := 15
  const DEVICE_UNAVAILABLE: u8 := 16
  const UNKNOWN_CATEGORY: u8 := 17

  // ----- efficiency classifications -----

  const USEFUL: u8 := 0
  const OVERHEAD: u8 := 1
  const AVOIDABLE_WASTE: u8 := 2
  const AVOIDED_WORK: u8 := 3

  const UNKNOWN_DEVICE_STATE: u8 := 6

  /** The category of an interval end: its own state when it names one, else by type and classification. */
  function DefaultCategory(kind: u8, classification: u8, state: u8): u8 {
    if state != UNKNOWN_CATEGORY then state
    else if kind == EXECUTION_BEGIN || kind == EXECUTION_END then
      if classification == USEFUL then USEFUL_EXECUTION
      else if classification == OVERHEAD then NECESSARY_OVERHEAD
      else if classification == AVOIDABLE_WASTE then NON_USEFUL_EXECUTION
      else if classification == AVOIDED_WORK then DEVICE_IDLE
      else UNKNOWN_CATEGORY
    else if kind == TRANSFER_BEGIN || kind == TRANSFER_END then TRANSFER_ACTIVE
    else if kind == RESERVATION_BEGIN || kind == RESERVATION_END then RESERVED_IDLE
    else if kind == RESIDENCY_BEGIN || kind == RESIDENCY_END then RESIDENCY_IDLE
    else if kind == WAIT_BEGIN || kind == WAIT_END then WAITING_QUEUE
    else if kind == RECOVERY_BEGIN || kind == RECOVERY_END then WAITING_RECOVERY
    else if kind == ATTEMPT_BEGIN || kind == ATTEMPT_END then RETRY_EXECUTION
    else UNKNOWN_CATEGORY
  }

  // ----- the malformed check -----

  const DOUBLE_ONE: u64 := 0x3FF0_0000_0000_0000
  const DOUBLE_HUNDRED: u64 := 0x4059_0000_0000_0000
  const DOUBLE_MINUS_ZERO: u64 := 0x8000_0000_0000_0000

  /**
   The bit pattern is a number in [0, limit]: non-negative doubles are ordered like their
   patterns, infinities and NaNs lie above every finite pattern, and -0.0 compares equal to zero.
   */
  predicate DoubleWithin(pattern: u64, limit: u64) {
    pattern <= limit || pattern == DOUBLE_MINUS_ZERO
  }

  predicate WellFormed(o: Observation) {
    o.begin <= o.end && DoubleWithin(o.ratio, DOUBLE_ONE) && DoubleWithin(o.percent, DOUBLE_HUNDRED)
  }

  /** The classification rules: an end and its begin type agree, and only executions can stay unknown. */
  lemma CategoryRules(kind: u8, classification: u8, state: u8)
    ensures IsEnd(kind) ==>
      DefaultCategory(kind, classification, state) == DefaultCategory(PairKind(kind), classification, state)
    ensures IsEnd(kind) && DefaultCategory(kind, classification, state) == UNKNOWN_CATEGORY ==>
      kind == EXECUTION_END && classification > AVOIDED_WORK
    ensures !(IsBegin(kind) && IsEnd(kind))
  {
  }

  /** The interval types are numbered 2 to 15, each begin before its end. */
  lemma IntervalTypes(kind: u8)
    ensures IsBegin(kind) <==> 2 <= kind < 16 && kind % 2 == 0
    ensures IsEnd(kind) <==> 2 <= kind < 16 && kind % 2 == 1
    ensures PairKind(kind) == if IsEnd(kind) then kind - 1 else kind
  {
  }

  /** Which types and classifications an interval of each category can come from, when its end names none. */
  lemma CategoryTable(kind: u8, classification: u8)
    ensures var c := DefaultCategory(kind, classification, UNKNOWN_CATEGORY);
      var execution := kind == 2 || kind == 3;
      && (c == 0 <==> execution && classification == 0)
      && (c == 2 <==> execution && classification == 1)
      && (c == 1 <==> execution && classification == 2)
      && (c == 15 <==> execution && classification == 3)
      && (c == 3 <==> kind == 4 || kind == 5)
      && (c == 11 <==> kind == 6 || kind == 7)
      && (c == 12 <==> kind == 8 || kind == 9)
      && (c == 5 <==> kind == 10 || kind == 11)
      && (c == 9 <==> kind == 12 || kind == 13)
      && (c == 10 <==> kind == 14 || kind == 15)
      && (c == 17 <==> kind < 2 || kind > 15 || (execution && classification > 3))
    ensures forall state: u8 :: state != 17 ==> DefaultCategory(kind, classification, state) == state
  {
  }

  /** The other types and the remaining categories, as the enumerations number them. */
  lemma Numbering()
    ensures [DEVICE_SAMPLE, WORKLOAD_SAMPLE, FRAGMENTATION_OBSERVED, FRAGMENTATION_CLEARED, CAPACITY_PUBLISHED,
             CAPACITY_INVALIDATED, USEFUL_WORK_SUMMARY, EFFICIENCY_SUMMARY, MEMORY_SAMPLE]
         == [0, 1, 20, 21, 22, 23, 24, 25, 28]
    ensures [USEFUL_EXECUTION, NON_USEFUL_EXECUTION, NECESSARY_OVERHEAD, TRANSFER_ACTIVE, MEMORY_BOUND,
             WAITING_QUEUE, WAITING_DEPENDENCY, WAITING_TRANSFER, WAITING_MEMORY, WAITING_RECOVERY,
             RETRY_EXECUTION, RESERVED_IDLE, RESIDENCY_IDLE, FRAGMENTATION_STRANDED, AUTHORITY_FENCED,
             DEVICE_IDLE, DEVICE_UNAVAILABLE, UNKNOWN_CATEGORY]
         == [0, 1, 2, 3, 4, 5, 6, 7, 8, 9, 10, 11, 12, 13, 14, 15, 16, 17]
    ensures UNKNOWN_DEVICE_STATE == 6
  {
  }
}
