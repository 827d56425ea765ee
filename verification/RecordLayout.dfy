/** Where each field of an observation lies in its 308-byte record. */
module RecordLayout {
  import opened Words
  import opened Observations
  import opened Codec

  /** The little-endian word v occupies `width` bytes of the record from `at` on. */
  ghost predicate Lies(data: seq<u8>, at: nat, width: nat, v: nat) {
    at + width <= |data| && data[at..at + width] == LittleEndian(v, width)
  }

  lemma FieldLies(o: Observation, k: nat)
    requires k < FIELDS
    ensures Lies(Encode(o), Offset(k), Width(k), Word(o, k))
  {
    hide Word;
    hide LittleEndian;
    hide Encode;
    FieldInside(k);
    EncodedField(o, k);
  }

  /** Bytes 0 to 40: identity, type and ticks. */
  lemma StampLies(o: Observation)
    ensures var data := Encode(o);
      && Lies(data, 0, 8, o.id)
      && Lies(data, 8, 8, o.generation)
      && Lies(data, 16, 8, o.coordinatorEpoch)
      && Lies(data, 24, 1, o.kind)
      && Lies(data, 25, 8, o.begin)
      && Lies(data, 33, 8, o.end)
  {
    hide Encode;
    hide LittleEndian;
    hide Lies;
    FieldLies(o, 0);
    FieldLies(o, 1);
    FieldLies(o, 2);
    FieldLies(o, 3);
    FieldLies(o, 4);
    FieldLies(o, 5);
  }

  /** Bytes 41 to 88: source, device and host. */
  lemma OriginLies(o: Observation)
    ensures var data := Encode(o);
      && Lies(data, 41, 8, o.source)
      && Lies(data, 49, 8, o.sourceGeneration)
      && Lies(data, 57, 8, o.device)
      && Lies(data, 65, 8, o.deviceGeneration)
      && Lies(data, 73, 8, o.host)
      && Lies(data, 81, 8, o.hostGeneration)
  {
    hide Encode;
    hide LittleEndian;
    hide Lies;
    FieldLies(o, 6);
    FieldLies(o, 7);
    FieldLies(o, 8);
    FieldLies(o, 9);
    FieldLies(o, 10);
    FieldLies(o, 11);
  }

  /** Bytes 89 to 128: worker, workload and request. */
  lemma WorkLies(o: Observation)
    ensures var data := Encode(o);
      && Lies(data, 89, 8, o.worker)
      && Lies(data, 97, 8, o.workerBoot)
      && Lies(data, 105, 8, o.workload)
      && Lies(data, 113, 8, o.workloadGeneration)
      && Lies(data, 121, 8, o.request)
  {
    hide Encode;
    hide LittleEndian;
    hide Lies;
    FieldLies(o, 12);
    FieldLies(o, 13);
    FieldLies(o, 14);
    FieldLies(o, 15);
    FieldLies(o, 16);
  }

  /** Bytes 129 to 176: attempt, reservation and residency. */
  lemma HoldingLies(o: Observation)
    ensures var data := Encode(o);
      && Lies(data, 129, 8, o.attempt)
      && Lies(data, 137, 8, o.attemptGeneration)
      && Lies(data, 145, 8, o.reservation)
      && Lies(data, 153, 8, o.reservationGeneration)
      && Lies(data, 161, 8, o.residency)
      && Lies(data, 169, 8, o.residencyGeneration)
  {
    hide Encode;
    hide LittleEndian;
    hide Lies;
    FieldLies(o, 17);
    FieldLies(o, 18);
    FieldLies(o, 19);
    FieldLies(o, 20);
    FieldLies(o, 21);
    FieldLies(o, 22);
  }

  /** Bytes 177 to 224: allocation, transfer and recovery. */
  lemma MovementLies(o: Observation)
    ensures var data := Encode(o);
      && Lies(data, 177, 8, o.allocation)
      && Lies(data, 185, 8, o.allocationGeneration)
      && Lies(data, 193, 8, o.transfer)
      && Lies(data, 201, 8, o.transferGeneration)
      && Lies(data, 209, 8, o.recovery)
      && Lies(data, 217, 8, o.recoveryGeneration)
  {
    hide Encode;
    hide LittleEndian;
    hide Lies;
    FieldLies(o, 23);
    FieldLies(o, 24);
    FieldLies(o, 25);
    FieldLies(o, 26);
    FieldLies(o, 27);
    FieldLies(o, 28);
  }

  /** Bytes 225 to 248: generations of fragmentation and evidence. */
  lemma EvidenceLies(o: Observation)
    ensures var data := Encode(o);
      && Lies(data, 225, 8, o.fragmentationGeneration)
      && Lies(data, 233, 8, o.evidence)
      && Lies(data, 241, 8, o.evidenceGeneration)
  {
    hide Encode;
    hide LittleEndian;
    hide Lies;
    FieldLies(o, 29);
    FieldLies(o, 30);
    FieldLies(o, 31);
  }

  /** Bytes 249 to 251: provenance and labels. */
  lemma LabelLies(o: Observation)
    ensures var data := Encode(o);
      && Lies(data, 249, 1, o.provenance)
      && Lies(data, 250, 1, o.evidenceLabel)
      && Lies(data, 251, 1, o.semantics)
  {
    hide Encode;
    hide LittleEndian;
    hide Lies;
    FieldLies(o, 32);
    FieldLies(o, 33);
    FieldLies(o, 34);
  }

  /** Bytes 252 to 255: state, reasons and classification. */
  lemma ReasonLies(o: Observation)
    ensures var data := Encode(o);
      && Lies(data, 252, 1, o.state)
      && Lies(data, 253, 1, o.busyReason)
      && Lies(data, 254, 1, o.idleReason)
      && Lies(data, 255, 1, o.classification)
  {
    hide Encode;
    hide LittleEndian;
    hide Lies;
    FieldLies(o, 35);
    FieldLies(o, 36);
    FieldLies(o, 37);
    FieldLies(o, 38);
  }

  /** Bytes 256 to 259: correlation, direction and states. */
  lemma ConditionLies(o: Observation)
    ensures var data := Encode(o);
      && Lies(data, 256, 1, o.correlation)
      && Lies(data, 257, 1, o.direction)
      && Lies(data, 258, 1, o.deviceState)
      && Lies(data, 259, 1, o.workloadState)
  {
    hide Encode;
    hide LittleEndian;
    hide Lies;
    FieldLies(o, 39);
    FieldLies(o, 40);
    FieldLies(o, 41);
    FieldLies(o, 42);
  }

  /** Bytes 260 to 283: ratio, percent and bytes. */
  lemma MeasureLies(o: Observation)
    ensures var data := Encode(o);
      && Lies(data, 260, 8, o.ratio)
      && Lies(data, 268, 8, o.percent)
      && Lies(data, 276, 8, o.bytes)
  {
    hide Encode;
    hide LittleEndian;
    hide Lies;
    FieldLies(o, 43);
    FieldLies(o, 44);
    FieldLies(o, 45);
  }

  /** Bytes 284 to 307: capacity, count and wall-clock time. */
  lemma AmountLies(o: Observation)
    ensures var data := Encode(o);
      && Lies(data, 284, 8, o.capacityBytes)
      && Lies(data, 292, 8, o.count)
      && Lies(data, 300, 8, if o.wallTime < 0 then o.wallTime + 0x1_0000_0000_0000_0000 else o.wallTime)
  {
    hide Encode;
    hide LittleEndian;
    hide Lies;
    FieldLies(o, 46);
    FieldLies(o, 47);
    FieldLies(o, 48);
  }
}
