/** The byte buffer a record is appended to, the reader that takes one apart, and both codec routines. */
module Buffers {
  import opened Words
  import opened Observations
  import opened Codec

  /** A growing byte vector. */
  class Writer {
    var bytes: seq<u8>

    constructor ()
      ensures bytes == []
    {
      bytes := [];
    }

    method PutU8(v: u8)
      modifies this
      ensures bytes == old(bytes) + [v]
    {
      bytes := bytes + [v];
    }

    method PutU32(v: u32)
      modifies this
      ensures bytes == old(bytes) + LittleEndian(v, 4)
    {
      PutBytes(v, 4);
    }

    method PutU64(v: u64)
      modifies this
      ensures bytes == old(bytes) + LittleEndian(v, 8)
    {
      PutBytes(v, 8);
    }

    /** The loop of the `put` helpers: byte i is the value shifted right by 8*i bits, masked. */
    method PutBytes(v: nat, n: nat)
      modifies this
      ensures bytes == old(bytes) + LittleEndian(v, n)
    {
      for i := 0 to n
        invariant bytes == old(bytes) + LittleEndian(v, n)[..i]
      {
        EncodedByte(v, n, i);
        bytes := bytes + [v / Power256(i) % U8_LIMIT];
      }
    }
  }

  /** A cursor over bytes; reading past the end clears `ok`, yields zero and leaves the cursor alone. */
  class Reader {
    const data: seq<u8>
    var off: nat
    var ok: bool

    constructor (data: seq<u8>)
      ensures this.data == data && off == 0 && ok
    {
      this.data := data;
      off, ok := 0, true;
    }

    ghost predicate Holds(n: nat)
      reads this
    {
      off + n <= |data|
    }

    method U8() returns (v: u8)
      modifies this
      ensures old(Holds(1)) ==> v == data[old(off)] && off == old(off) + 1 && ok == old(ok)
      ensures !old(Holds(1)) ==> v == 0 && off == old(off) && !ok
    {
      if off + 1 > |data| {
        ok := false;
        return 0;
      }
      v := data[off];
      off := off + 1;
    }

    method U32() returns (v: u32)
      modifies this
      ensures old(Holds(4)) ==> v == FromLittleEndian(data[old(off)..old(off) + 4])
      ensures old(Holds(4)) ==> off == old(off) + 4 && ok == old(ok)
      ensures !old(Holds(4)) ==> v == 0 && off == old(off) && !ok
    {
      PowersOf256();
      v := TakeBytes(4);
    }

    method U64() returns (v: u64)
      modifies this
      ensures old(Holds(8)) ==> v == FromLittleEndian(data[old(off)..old(off) + 8])
      ensures old(Holds(8)) ==> off == old(off) + 8 && ok == old(ok)
      ensures !old(Holds(8)) ==> v == 0 && off == old(off) && !ok
    {
      PowersOf256();
      v := TakeBytes(8);
    }

    /** The loop of the multi-byte reads: byte i enters shifted left by 8*i bits. */
    method TakeBytes(n: nat) returns (v: nat)
      modifies this
      ensures old(Holds(n)) ==> v == FromLittleEndian(data[old(off)..old(off) + n])
      ensures old(Holds(n)) ==> off == old(off) + n && ok == old(ok) && v < Power256(n)
      ensures !old(Holds(n)) ==> v == 0 && off == old(off) && !ok
    {
      if off + n > |data| {
        ok := false;
        return 0;
      }
      v := 0;
      for i := 0 to n
        invariant off == old(off) && ok == old(ok)
        invariant v == FromLittleEndian(data[off..off + i])
      {
        assert data[off..off + i + 1] == data[off..off + i] + [data[off + i]];
        HighByte(data[off..off + i], data[off + i]);
        v := v + data[off + i] * Power256(i);
      }
      off := off + n;
    }
  }

  lemma {:induction false} HighByte(low: seq<u8>, b: u8)
    ensures FromLittleEndian(low + [b]) == FromLittleEndian(low) + b * Power256(|low|)
  {
    if |low| > 0 {
      assert (low + [b])[1..] == low[1..] + [b];
      HighByte(low[1..], b);
      var p, v := Power256(|low| - 1), FromLittleEndian(low[1..]);
      Distribute(U8_LIMIT, b, p, v);
      Distribute(b, U8_LIMIT, p, 0);
    }
  }

  // ----- encode_observation -----

  method PutWord(buf: Writer, v: u64, ghost start: seq<u8>, ghost o: Observation, ghost k: nat)
    requires k < FIELDS && Width(k) == 8 && v == Word(o, k)
    requires buf.bytes == start + EncodeFields(o, k)
    modifies buf
    ensures buf.bytes == start + EncodeFields(o, k + 1)
  {
    buf.PutU64(v);
    assert buf.bytes == start + (EncodeFields(o, k) + LittleEndian(v, 8));
  }

  method PutEnum(buf: Writer, v: u8, ghost start: seq<u8>, ghost o: Observation, ghost k: nat)
    requires k < FIELDS && Width(k) == 1 && v == Word(o, k)
    requires buf.bytes == start + EncodeFields(o, k)
    modifies buf
    ensures buf.bytes == start + EncodeFields(o, k + 1)
  {
    buf.PutU8(v);
    assert LittleEndian(v, 1) == [v];
    assert buf.bytes == start + (EncodeFields(o, k) + [v]);
  }

  /** Appends the record of `o`, field by field. */
  method EncodeObservation(buf: Writer, o: Observation)
    modifies buf
    ensures buf.bytes == old(buf.bytes) + Encode(o)
  {
    ghost var start := buf.bytes;
    assert start == start + EncodeFields(o, 0);
    PutWord(buf, o.id, start, o, 0);
    PutWord(buf, o.generation, start, o, 1);
    PutWord(buf, o.coordinatorEpoch, start, o, 2);
    PutEnum(buf, o.kind, start, o, 3);
    PutWord(buf, o.begin, start, o, 4);
    PutWord(buf, o.end, start, o, 5);
    PutWord(buf, o.source, start, o, 6);
    PutWord(buf, o.sourceGeneration, start, o, 7);
    PutWord(buf, o.device, start, o, 8);
    PutWord(buf, o.deviceGeneration, start, o, 9);
    PutWord(buf, o.host, start, o, 10);
    PutWord(buf, o.hostGeneration, start, o, 11);
    PutWord(buf, o.worker, start, o, 12);
    PutWord(buf, o.workerBoot, start, o, 13);
    PutWord(buf, o.workload, start, o, 14);
    PutWord(buf, o.workloadGeneration, start, o, 15);
    PutWord(buf, o.request, start, o, 16);
    PutWord(buf, o.attempt, start, o, 17);
    PutWord(buf, o.attemptGeneration, start, o, 18);
    PutWord(buf, o.reservation, start, o, 19);
    PutWord(buf, o.reservationGeneration, start, o, 20);
    PutWord(buf, o.residency, start, o, 21);
    PutWord(buf, o.residencyGeneration, start, o, 22);
    PutWord(buf, o.allocation, start, o, 23);
    PutWord(buf, o.allocationGeneration, start, o, 24);
    PutWord(buf, o.transfer, start, o, 25);
    PutWord(buf, o.transferGeneration, start, o, 26);
    PutWord(buf, o.recovery, start, o, 27);
    PutWord(buf, o.recoveryGeneration, start, o, 28);
    PutWord(buf, o.fragmentationGeneration, start, o, 29);
    PutWord(buf, o.evidence, start, o, 30);
    PutWord(buf, o.evidenceGeneration, start, o, 31);
    PutEnum(buf, o.provenance, start, o, 32);
    PutEnum(buf, o.evidenceLabel, start, o, 33);
    PutEnum(buf, o.semantics, start, o, 34);
    PutEnum(buf, o.state, start, o, 35);
    PutEnum(buf, o.busyReason, start, o, 36);
    PutEnum(buf, o.idleReason, start, o, 37);
    PutEnum(buf, o.classification, start, o, 38);
    PutEnum(buf, o.correlation, start, o, 39);
    PutEnum(buf, o.direction, start, o, 40);
    PutEnum(buf, o.deviceState, start, o, 41);
    PutEnum(buf, o.workloadState, start, o, 42);
    PutWord(buf, o.ratio, start, o, 43);
    PutWord(buf, o.percent, start, o, 44);
    PutWord(buf, o.bytes, start, o, 45);
    PutWord(buf, o.capacityBytes, start, o, 46);
    PutWord(buf, o.count, start, o, 47);
    PutWord(buf, SignedToWord(o.wallTime), start, o, 48);
  }

  // ----- decode_observation -----

  /** As long as nothing failed, the reader stands at the start of field k. */
  ghost predicate AtField(off: nat, ok: bool, size: nat, k: nat) {
    && (ok ==> off == Offset(k))
    && (size == RECORD_SIZE && k <= FIELDS ==> ok)
  }

  method ReadWord(r: Reader, ghost k: nat) returns (v: u64)
    requires k < FIELDS && Width(k) == 8 && AtField(r.off, r.ok, |r.data|, k)
    modifies r
    ensures AtField(r.off, r.ok, |r.data|, k + 1)
    ensures |r.data| == RECORD_SIZE ==> v == FieldWord(r.data, k)
  {
    FieldInside(k);
    v := r.U64();
  }

  method ReadEnum(r: Reader, ghost k: nat) returns (v: u8)
    requires k < FIELDS && Width(k) == 1 && AtField(r.off, r.ok, |r.data|, k)
    modifies r
    ensures AtField(r.off, r.ok, |r.data|, k + 1)
    ensures |r.data| == RECORD_SIZE ==> v == FieldWord(r.data, k)
  {
    FieldInside(k);
    v := r.U8();
    if |r.data| == RECORD_SIZE {
      var field := r.data[Offset(k)..Offset(k) + 1];
      assert field == [v] && FromLittleEndian(field[1..]) == 0;
    }
  }

  /** Fields 0 to 11. */
  method ReadOrigin(r: Reader)
    returns (id: u64, generation: u64, coordinatorEpoch: u64, kind: u8, begin: u64, end: u64, source: u64,
             sourceGeneration: u64, device: u64, deviceGeneration: u64, host: u64, hostGeneration: u64)
    requires AtField(r.off, r.ok, |r.data|, 0)
    modifies r
    ensures AtField(r.off, r.ok, |r.data|, 12)
    ensures |r.data| == RECORD_SIZE ==>
      && id == FieldWord(r.data, 0) && generation == FieldWord(r.data, 1)
      && coordinatorEpoch == FieldWord(r.data, 2) && kind == FieldWord(r.data, 3)
      && begin == FieldWord(r.data, 4) && end == FieldWord(r.data, 5)
      && source == FieldWord(r.data, 6) && sourceGeneration == FieldWord(r.data, 7)
      && device == FieldWord(r.data, 8) && deviceGeneration == FieldWord(r.data, 9)
      && host == FieldWord(r.data, 10) && hostGeneration == FieldWord(r.data, 11)
  {
    id := ReadWord(r, 0);
    generation := ReadWord(r, 1);
    coordinatorEpoch := ReadWord(r, 2);
    kind := ReadEnum(r, 3);
    begin := ReadWord(r, 4);
    end := ReadWord(r, 5);
    source := ReadWord(r, 6);
    sourceGeneration := ReadWord(r, 7);
    device := ReadWord(r, 8);
    deviceGeneration := ReadWord(r, 9);
    host := ReadWord(r, 10);
    hostGeneration := ReadWord(r, 11);
  }

  /** Fields 12 to 22. */
  method ReadWork(r: Reader)
    returns (worker: u64, workerBoot: u64, workload: u64, workloadGeneration: u64, request: u64, attempt: u64,
             attemptGeneration: u64, reservation: u64, reservationGeneration: u64, residency: u64,
             residencyGeneration: u64)
    requires AtField(r.off, r.ok, |r.data|, 12)
    modifies r
    ensures AtField(r.off, r.ok, |r.data|, 23)
    ensures |r.data| == RECORD_SIZE ==>
      && worker == FieldWord(r.data, 12) && workerBoot == FieldWord(r.data, 13)
      && workload == FieldWord(r.data, 14) && workloadGeneration == FieldWord(r.data, 15)
      && request == FieldWord(r.data, 16) && attempt == FieldWord(r.data, 17)
      && attemptGeneration == FieldWord(r.data, 18) && reservation == FieldWord(r.data, 19)
      && reservationGeneration == FieldWord(r.data, 20) && residency == FieldWord(r.data, 21)
      && residencyGeneration == FieldWord(r.data, 22)
  {
    worker := ReadWord(r, 12);
    workerBoot := ReadWord(r, 13);
    workload := ReadWord(r, 14);
    workloadGeneration := ReadWord(r, 15);
    request := ReadWord(r, 16);
    attempt := ReadWord(r, 17);
    attemptGeneration := ReadWord(r, 18);
    reservation := ReadWord(r, 19);
    reservationGeneration := ReadWord(r, 20);
    residency := ReadWord(r, 21);
    residencyGeneration := ReadWord(r, 22);
  }

  /** Fields 23 to 31. */
  method ReadResources(r: Reader)
    returns (allocation: u64, allocationGeneration: u64, transfer: u64, transferGeneration: u64, recovery: u64,
             recoveryGeneration: u64, fragmentationGeneration: u64, evidence: u64, evidenceGeneration: u64)
    requires AtField(r.off, r.ok, |r.data|, 23)
    modifies r
    ensures AtField(r.off, r.ok, |r.data|, 32)
    ensures |r.data| == RECORD_SIZE ==>
      && allocation == FieldWord(r.data, 23) && allocationGeneration == FieldWord(r.data, 24)
      && transfer == FieldWord(r.data, 25) && transferGeneration == FieldWord(r.data, 26)
      && recovery == FieldWord(r.data, 27) && recoveryGeneration == FieldWord(r.data, 28)
      && fragmentationGeneration == FieldWord(r.data, 29) && evidence == FieldWord(r.data, 30)
      && evidenceGeneration == FieldWord(r.data, 31)
  {
    allocation := ReadWord(r, 23);
    allocationGeneration := ReadWord(r, 24);
    transfer := ReadWord(r, 25);
    transferGeneration := ReadWord(r, 26);
    recovery := ReadWord(r, 27);
    recoveryGeneration := ReadWord(r, 28);
    fragmentationGeneration := ReadWord(r, 29);
    evidence := ReadWord(r, 30);
    evidenceGeneration := ReadWord(r, 31);
  }

  /** Fields 32 to 42. */
  method ReadLabels(r: Reader)
    returns (provenance: u8, evidenceLabel: u8, semantics: u8, state: u8, busyReason: u8, idleReason: u8,
             classification: u8, correlation: u8, direction: u8, deviceState: u8, workloadState: u8)
    requires AtField(r.off, r.ok, |r.data|, 32)
    modifies r
    ensures AtField(r.off, r.ok, |r.data|, 43)
    ensures |r.data| == RECORD_SIZE ==>
      && provenance == FieldWord(r.data, 32) && evidenceLabel == FieldWord(r.data, 33)
      && semantics == FieldWord(r.data, 34) && state == FieldWord(r.data, 35)
      && busyReason == FieldWord(r.data, 36) && idleReason == FieldWord(r.data, 37)
      && classification == FieldWord(r.data, 38) && correlation == FieldWord(r.data, 39)
      && direction == FieldWord(r.data, 40) && deviceState == FieldWord(r.data, 41)
      && workloadState == FieldWord(r.data, 42)
  {
    provenance := ReadEnum(r, 32);
    evidenceLabel := ReadEnum(r, 33);
    semantics := ReadEnum(r, 34);
    state := ReadEnum(r, 35);
    busyReason := ReadEnum(r, 36);
    idleReason := ReadEnum(r, 37);
    classification := ReadEnum(r, 38);
    correlation := ReadEnum(r, 39);
    direction := ReadEnum(r, 40);
    deviceState := ReadEnum(r, 41);
    workloadState := ReadEnum(r, 42);
  }

  /** Fields 43 to 48. */
  method ReadMeasures(r: Reader)
    returns (ratio: u64, percent: u64, bytes: u64, capacityBytes: u64, count: u64, wallTime: u64)
    requires AtField(r.off, r.ok, |r.data|, 43)
    modifies r
    ensures AtField(r.off, r.ok, |r.data|, 49)
    ensures |r.data| == RECORD_SIZE ==>
      && ratio == FieldWord(r.data, 43) && percent == FieldWord(r.data, 44)
      && bytes == FieldWord(r.data, 45) && capacityBytes == FieldWord(r.data, 46)
      && count == FieldWord(r.data, 47) && wallTime == FieldWord(r.data, 48)
  {
    ratio := ReadWord(r, 43);
    percent := ReadWord(r, 44);
    bytes := ReadWord(r, 45);
    capacityBytes := ReadWord(r, 46);
    count := ReadWord(r, 47);
    wallTime := ReadWord(r, 48);
  }

  /** Decodes exactly the strings of record size. */
  method DecodeObservation(data: seq<u8>) returns (result: Option<Observation>)
    ensures result == if |data| == RECORD_SIZE then Some(Decode(data)) else None
  {
    var r := new Reader(data);
    var id, generation, coordinatorEpoch, kind, begin, end,
      source, sourceGeneration, device, deviceGeneration, host, hostGeneration := ReadOrigin(r);
    var worker, workerBoot, workload, workloadGeneration, request, attempt,
      attemptGeneration, reservation, reservationGeneration, residency, residencyGeneration := ReadWork(r);
    var allocation, allocationGeneration, transfer, transferGeneration, recovery, recoveryGeneration,
      fragmentationGeneration, evidence, evidenceGeneration := ReadResources(r);
    var provenance, evidenceLabel, semantics, state, busyReason, idleReason,
      classification, correlation, direction, deviceState, workloadState := ReadLabels(r);
    var ratio, percent, bytes, capacityBytes, count, wallTime := ReadMeasures(r);
    if !r.ok || r.off != |data| {
      return None;
    }
    result := Some(Observation(
      id, generation, coordinatorEpoch, kind, begin,
      end, source, sourceGeneration, device, deviceGeneration,
      host, hostGeneration, worker, workerBoot, workload,
      workloadGeneration, request, attempt, attemptGeneration, reservation,
      reservationGeneration, residency, residencyGeneration, allocation, allocationGeneration,
      transfer, transferGeneration, recovery, recoveryGeneration, fragmentationGeneration,
      evidence, evidenceGeneration, provenance, evidenceLabel, semantics,
      state, busyReason, idleReason, classification, correlation,
      direction, deviceState, workloadState, ratio, percent,
      bytes, capacityBytes, count, WordToSigned(wallTime)));
  }
}
