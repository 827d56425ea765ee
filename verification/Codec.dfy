/** The fixed 308-byte record format: 49 little-endian fields of one or eight bytes. */
module Codec {
  import opened Words
  import opened Observations

  const FIELDS: nat := 49
  const RECORD_SIZE: nat := 308

  /** Field 3 is the type; fields 32 to 42 are the other enumerations. */
  function Width(k: nat): (w: nat)
    ensures w == 1 || w == 8
  {
    if k == 3 || 32 <= k < 43 then 1 else 8
  }

  /** Where field k begins. */
  function Offset(k: nat): nat {
    if k <= 3 then 8 * k
    else if k <= 32 then 8 * k - 7
    else if k <= 43 then 217 + k
    else 8 * k - 84
  }

  /** The k-th field as an unsigned word, in the order it is written. */
  function Word(o: Observation, k: nat): (w: u64)
    ensures Width(k) == 1 ==> w < U8_LIMIT
  {
    match k
    case 0 => o.id
    case 1 => o.generation
    case 2 => o.coordinatorEpoch
    case 3 => o.kind
    case 4 => o.begin
    case 5 => o.end
    case 6 => o.source
    case 7 => o.sourceGeneration
    case 8 => o.device
    case 9 => o.deviceGeneration
    case 10 => o.host
    case 11 => o.hostGeneration
    case 12 => o.worker
    case 13 => o.workerBoot
    case 14 => o.workload
    case 15 => o.workloadGeneration
    case 16 => o.request
    case 17 => o.attempt
    case 18 => o.attemptGeneration
    case 19 => o.reservation
    case 20 => o.reservationGeneration
    case 21 => o.residency
    case 22 => o.residencyGeneration
    case 23 => o.allocation
    case 24 => o.allocationGeneration
    case 25 => o.transfer
    case 26 => o.transferGeneration
    case 27 => o.recovery
    case 28 => o.recoveryGeneration
    case 29 => o.fragmentationGeneration
    case 30 => o.evidence
    case 31 => o.evidenceGeneration
    case 32 => o.provenance
    case 33 => o.evidenceLabel
    case 34 => o.semantics
    case 35 => o.state
    case 36 => o.busyReason
    case 37 => o.idleReason
    case 38 => o.classification
    case 39 => o.correlation
    case 40 => o.direction
    case 41 => o.deviceState
    case 42 => o.workloadState
    case 43 => o.ratio
    case 44 => o.percent
    case 45 => o.bytes
    case 46 => o.capacityBytes
    case 47 => o.count
    case 48 => SignedToWord(o.wallTime)
    case _ => 0
  }

  /** The first k fields in order. */
  function EncodeFields(o: Observation, k: nat): (bytes: seq<u8>)
    requires k <= FIELDS
    ensures |bytes| == Offset(k)
  {
    if k == 0 then [] else EncodeFields(o, k - 1) + LittleEndian(Word(o, k - 1), Width(k - 1))
  }

  /** The record of an observation. */
  function Encode(o: Observation): (bytes: seq<u8>)
    ensures |bytes| == RECORD_SIZE
  {
    EncodeFields(o, FIELDS)
  }

  type Record = data: seq<u8> | |data| == RECORD_SIZE witness seq(RECORD_SIZE, _ => 0)

  lemma FieldInside(k: nat)
    requires k < FIELDS
    ensures Offset(k) + Width(k) == Offset(k + 1) <= RECORD_SIZE
  {
  }

  /** The word stored in field k of a record. */
  function FieldWord(data: Record, k: nat): (w: u64)
    requires k < FIELDS
    ensures Width(k) == 1 ==> w < U8_LIMIT
  {
    FieldInside(k);
    PowersOf256();
    FromLittleEndian(data[Offset(k)..Offset(k) + Width(k)])
  }

  /** The words stored in a record. */
  function RecordWords(data: Record): (w: seq<u64>)
    ensures |w| == FIELDS && forall k :: 0 <= k < FIELDS ==> w[k] == FieldWord(data, k)
  {
    seq(FIELDS, k requires 0 <= k < FIELDS => FieldWord(data, k))
  }

  /** One word a field, and the enumerations are bytes. */
  predicate FieldWords(w: seq<u64>) {
    |w| == FIELDS && forall k :: 0 <= k < FIELDS && (k == 3 || 32 <= k < 43) ==> w[k] < U8_LIMIT
  }

  /** The observation with the given words as fields. */
  function FromWords(w: seq<u64>): Observation
    requires FieldWords(w)
  {
    Observation(
      w[0], w[1], w[2], w[3], w[4], w[5], w[6], w[7],
      w[8], w[9], w[10], w[11], w[12], w[13], w[14], w[15],
      w[16], w[17], w[18], w[19], w[20], w[21], w[22], w[23],
      w[24], w[25], w[26], w[27], w[28], w[29], w[30], w[31],
      w[32], w[33], w[34], w[35], w[36], w[37], w[38], w[39],
      w[40], w[41], w[42], w[43], w[44], w[45], w[46], w[47],
      WordToSigned(w[48]))
  }

  /** The observation a record denotes. */
  function Decode(data: Record): Observation {
    FromWords(RecordWords(data))
  }

  // ----- the codec is a bijection -----

  lemma FieldsOfWords(w: seq<u64>, k: nat)
    requires FieldWords(w) && k < FIELDS
    ensures Word(FromWords(w), k) == w[k]
  {
  }

  lemma WordsDecide0(o: Observation, p: Observation)
    requires forall k :: 0 <= k < 7 ==> Word(o, k) == Word(p, k)
    ensures o.id == p.id && o.generation == p.generation && o.coordinatorEpoch == p.coordinatorEpoch && o.kind == p.kind
    ensures o.begin == p.begin && o.end == p.end && o.source == p.source
  {
    assert Word(o, 0) == Word(p, 0);
    assert Word(o, 1) == Word(p, 1);
    assert Word(o, 2) == Word(p, 2);
    assert Word(o, 3) == Word(p, 3);
    assert Word(o, 4) == Word(p, 4);
    assert Word(o, 5) == Word(p, 5);
    assert Word(o, 6) == Word(p, 6);
  }

  lemma WordsDecide7(o: Observation, p: Observation)
    requires forall k :: 7 <= k < 14 ==> Word(o, k) == Word(p, k)
    ensures o.sourceGeneration == p.sourceGeneration && o.device == p.device
      && o.deviceGeneration == p.deviceGeneration && o.host == p.host
    ensures o.hostGeneration == p.hostGeneration && o.worker == p.worker && o.workerBoot == p.workerBoot
  {
    assert Word(o, 7) == Word(p, 7);
    assert Word(o, 8) == Word(p, 8);
    assert Word(o, 9) == Word(p, 9);
    assert Word(o, 10) == Word(p, 10);
    assert Word(o, 11) == Word(p, 11);
    assert Word(o, 12) == Word(p, 12);
    assert Word(o, 13) == Word(p, 13);
  }

  lemma WordsDecide14(o: Observation, p: Observation)
    requires forall k :: 14 <= k < 21 ==> Word(o, k) == Word(p, k)
    ensures o.workload == p.workload && o.workloadGeneration == p.workloadGeneration && o.request == p.request
      && o.attempt == p.attempt
    ensures o.attemptGeneration == p.attemptGeneration && o.reservation == p.reservation
      && o.reservationGeneration == p.reservationGeneration
  {
    assert Word(o, 14) == Word(p, 14);
    assert Word(o, 15) == Word(p, 15);
    assert Word(o, 16) == Word(p, 16);
    assert Word(o, 17) == Word(p, 17);
    assert Word(o, 18) == Word(p, 18);
    assert Word(o, 19) == Word(p, 19);
    assert Word(o, 20) == Word(p, 20);
  }

  lemma WordsDecide21(o: Observation, p: Observation)
    requires forall k :: 21 <= k < 28 ==> Word(o, k) == Word(p, k)
    ensures o.residency == p.residency && o.residencyGeneration == p.residencyGeneration
      && o.allocation == p.allocation && o.allocationGeneration == p.allocationGeneration
    ensures o.transfer == p.transfer && o.transferGeneration == p.transferGeneration && o.recovery == p.recovery
  {
    assert Word(o, 21) == Word(p, 21);
    assert Word(o, 22) == Word(p, 22);
    assert Word(o, 23) == Word(p, 23);
    assert Word(o, 24) == Word(p, 24);
    assert Word(o, 25) == Word(p, 25);
    assert Word(o, 26) == Word(p, 26);
    assert Word(o, 27) == Word(p, 27);
  }

  lemma WordsDecide28(o: Observation, p: Observation)
    requires forall k :: 28 <= k < 35 ==> Word(o, k) == Word(p, k)
    ensures o.recoveryGeneration == p.recoveryGeneration
      && o.fragmentationGeneration == p.fragmentationGeneration && o.evidence == p.evidence
      && o.evidenceGeneration == p.evidenceGeneration
    ensures o.provenance == p.provenance && o.evidenceLabel == p.evidenceLabel && o.semantics == p.semantics
  {
    assert Word(o, 28) == Word(p, 28);
    assert Word(o, 29) == Word(p, 29);
    assert Word(o, 30) == Word(p, 30);
    assert Word(o, 31) == Word(p, 31);
    assert Word(o, 32) == Word(p, 32);
    assert Word(o, 33) == Word(p, 33);
    assert Word(o, 34) == Word(p, 34);
  }

  lemma WordsDecide35(o: Observation, p: Observation)
    requires forall k :: 35 <= k < 42 ==> Word(o, k) == Word(p, k)
    ensures o.state == p.state && o.busyReason == p.busyReason && o.idleReason == p.idleReason
      && o.classification == p.classification
    ensures o.correlation == p.correlation && o.direction == p.direction && o.deviceState == p.deviceState
  {
    assert Word(o, 35) == Word(p, 35);
    assert Word(o, 36) == Word(p, 36);
    assert Word(o, 37) == Word(p, 37);
    assert Word(o, 38) == Word(p, 38);
    assert Word(o, 39) == Word(p, 39);
    assert Word(o, 40) == Word(p, 40);
    assert Word(o, 41) == Word(p, 41);
  }

  lemma WordsDecide42(o: Observation, p: Observation)
    requires forall k :: 42 <= k < 49 ==> Word(o, k) == Word(p, k)
    ensures o.workloadState == p.workloadState && o.ratio == p.ratio && o.percent == p.percent && o.bytes == p.bytes
    ensures o.capacityBytes == p.capacityBytes && o.count == p.count && o.wallTime == p.wallTime
  {
    assert Word(o, 42) == Word(p, 42);
    assert Word(o, 43) == Word(p, 43);
    assert Word(o, 44) == Word(p, 44);
    assert Word(o, 45) == Word(p, 45);
    assert Word(o, 46) == Word(p, 46);
    assert Word(o, 47) == Word(p, 47);
    assert Word(o, 48) == Word(p, 48);
  }

  /** The 49 words decide the observation. */
  lemma WordsDecide(o: Observation, p: Observation)
    requires forall k :: 0 <= k < FIELDS ==> Word(o, k) == Word(p, k)
    ensures o == p
  {
    WordsDecide0(o, p);
    WordsDecide7(o, p);
    WordsDecide14(o, p);
    WordsDecide21(o, p);
    WordsDecide28(o, p);
    WordsDecide35(o, p);
    WordsDecide42(o, p);
  }

  lemma {:induction false} FieldsPrefix(o: Observation, j: nat, k: nat)
    requires j <= k <= FIELDS
    ensures Offset(j) <= Offset(k)
    ensures EncodeFields(o, k)[..Offset(j)] == EncodeFields(o, j)
    decreases k - j
  {
    hide Word;
    hide LittleEndian;
    if j < k {
      FieldsPrefix(o, j, k - 1);
      var longer, shorter := EncodeFields(o, k), EncodeFields(o, k - 1);
      assert longer[..Offset(k - 1)] == shorter;
      assert longer[..Offset(j)] == shorter[..Offset(j)];
    }
  }

  /** Field k of a record is the word that was written there. */
  lemma EncodedField(o: Observation, k: nat)
    requires k < FIELDS
    ensures Offset(k) <= Offset(k + 1) <= RECORD_SIZE
    ensures Encode(o)[Offset(k)..Offset(k + 1)] == LittleEndian(Word(o, k), Width(k))
  {
    hide LittleEndian;
    FieldInside(k);
    FieldsPrefix(o, k + 1, FIELDS);
    assert Encode(o)[..Offset(k + 1)][Offset(k)..] == EncodeFields(o, k + 1)[Offset(k)..];
  }

  /** Reading field k of a record gives back the word that was written there. */
  lemma EncodedWord(o: Observation, k: nat)
    requires k < FIELDS
    ensures FieldWord(Encode(o), k) == Word(o, k)
  {
    FieldInside(k);
    EncodedField(o, k);
    PowersOf256();
    DecodeAfterEncode(Word(o, k), Width(k));
  }

  /** Bytes Offset(k) to Offset(k + 1) are field k of `o`. */
  ghost predicate FieldHolds(data: Record, o: Observation, k: nat)
    requires k < FIELDS
  {
    Offset(k) <= Offset(k + 1) <= RECORD_SIZE
    && LittleEndian(Word(o, k), Width(k)) == data[Offset(k)..Offset(k + 1)]
  }

  lemma FieldKept(data: Record, o: Observation, k: nat)
    requires k < FIELDS && Word(o, k) == FieldWord(data, k)
    ensures FieldHolds(data, o, k)
  {
    FieldInside(k);
    EncodeAfterDecode(data[Offset(k)..Offset(k + 1)]);
  }

  lemma {:induction false} RecordPrefix(data: Record, o: Observation, k: nat)
    requires forall j :: 0 <= j < FIELDS ==> FieldHolds(data, o, j)
    requires k <= FIELDS
    ensures Offset(k) <= RECORD_SIZE && EncodeFields(o, k) == data[..Offset(k)]
  {
    if k > 0 {
      RecordPrefix(data, o, k - 1);
      assert FieldHolds(data, o, k - 1);
      assert data[..Offset(k)] == data[..Offset(k - 1)] + data[Offset(k - 1)..Offset(k)];
    }
  }

  /** Decoding inverts encoding: no observation is lost. */
  lemma DecodeInvertsEncode(o: Observation)
    ensures Decode(Encode(o)) == o
  {
    forall k | 0 <= k < FIELDS
      ensures Word(Decode(Encode(o)), k) == Word(o, k)
    {
      FieldsOfWords(RecordWords(Encode(o)), k);
      EncodedWord(o, k);
    }
    WordsDecide(Decode(Encode(o)), o);
  }

  lemma DecodedFieldHolds(data: Record, k: nat)
    requires k < FIELDS
    ensures FieldHolds(data, Decode(data), k)
  {
    FieldsOfWords(RecordWords(data), k);
    FieldKept(data, Decode(data), k);
  }

  lemma HeldFieldsAreTheRecord(data: Record, o: Observation)
    requires forall k :: 0 <= k < FIELDS ==> FieldHolds(data, o, k)
    ensures Encode(o) == data
  {
    RecordPrefix(data, o, FIELDS);
    assert data[..RECORD_SIZE] == data;
  }

  /** Encoding inverts decoding: every 308-byte string is the record of exactly one observation. */
  lemma EncodeInvertsDecode(data: Record)
    ensures Encode(Decode(data)) == data
    ensures forall o :: Encode(o) == data ==> o == Decode(data)
  {
    forall k | 0 <= k < FIELDS
      ensures FieldHolds(data, Decode(data), k)
    {
      DecodedFieldHolds(data, k);
    }
    HeldFieldsAreTheRecord(data, Decode(data));
    forall o | Encode(o) == data
      ensures o == Decode(data)
    {
      DecodeInvertsEncode(o);
    }
  }
}
