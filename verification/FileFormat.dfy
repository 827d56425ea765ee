/** The saved file: magic, version, epoch, generation, count, then one checksummed frame a record. */
module FileFormat {
  import opened Words
  import opened Observations
  import opened Codec
  import opened Crc32c
  import opened Buffers

  const MAGIC: seq<u8> := [0x55, 0x4F, 0x42, 0x46]
  const VERSION: u32 := 1
  const HEADER: nat := 28
  const FRAME: nat := 316
  const MAX_LENGTH: nat := 16 * 1024 * 1024

  // ----- what save writes -----

  /** Length, payload, checksum of the payload. */
  function Frame(o: Observation): (bytes: seq<u8>)
    ensures |bytes| == FRAME
  {
    LittleEndian(RECORD_SIZE, 4) + Encode(o) + LittleEndian(Checksum(Encode(o)), 4)
  }

  function Frames(obs: seq<Observation>): (bytes: seq<u8>)
    ensures |bytes| == FRAME * |obs|
  {
    if |obs| == 0 then [] else Frames(obs[..|obs| - 1]) + Frame(obs[|obs| - 1])
  }

  function Header(epoch: u64, generation: u64, count: u64): (bytes: seq<u8>)
    ensures |bytes| == HEADER
  {
    LittleEndian(VERSION, 4) + LittleEndian(epoch, 8) + LittleEndian(generation, 8) + LittleEndian(count, 8)
  }

  /** Everything after the magic. */
  function Body(epoch: u64, generation: u64, obs: seq<Observation>): (bytes: seq<u8>) {
    Header(epoch, generation, |obs| % U64_LIMIT) + Frames(obs)
  }

  function File(epoch: u64, generation: u64, obs: seq<Observation>): (bytes: seq<u8>)
    ensures |bytes| == 4 + HEADER + FRAME * |obs|
  {
    MAGIC + Body(epoch, generation, obs)
  }

  /** The body built by `save`, then the magic in front. */
  method SaveFile(epoch: u64, generation: u64, obs: seq<Observation>) returns (file: seq<u8>)
    ensures file == File(epoch, generation, obs)
  {
    hide Frame;
    hide LittleEndian;
    hide Header;
    var body := new Writer();
    body.PutU32(VERSION);
    body.PutU64(epoch);
    body.PutU64(generation);
    body.PutU64(|obs| % U64_LIMIT);
    ghost var header := body.bytes;
    HeaderBytes(epoch, generation, |obs| % U64_LIMIT, header);
    for i := 0 to |obs|
      invariant body.bytes == header + Frames(obs[..i])
    {
      SaveFrame(body, obs[i]);
      AnotherFrame(header, obs, i);
    }
    assert obs[..|obs|] == obs;
    file := MAGIC + body.bytes;
  }

  lemma HeaderBytes(epoch: u64, generation: u64, count: u64, bytes: seq<u8>)
    requires bytes == [] + LittleEndian(VERSION, 4) + LittleEndian(epoch, 8) + LittleEndian(generation, 8)
                      + LittleEndian(count, 8)
    ensures bytes == Header(epoch, generation, count)
  {
    assert [] + LittleEndian(VERSION, 4) == LittleEndian(VERSION, 4);
  }

  lemma AnotherFrame(header: seq<u8>, obs: seq<Observation>, i: nat)
    requires i < |obs|
    ensures header + Frames(obs[..i]) + Frame(obs[i]) == header + Frames(obs[..i + 1])
  {
    hide Frame;
    assert obs[..i + 1][..i] == obs[..i];
  }

  method SaveFrame(body: Writer, o: Observation)
    modifies body
    ensures body.bytes == old(body.bytes) + Frame(o)
  {
    hide Checksum;
    hide Encode;
    hide LittleEndian;
    hide Frame;
    ghost var before := body.bytes;
    var enc := new Writer();
    EncodeObservation(enc, o);
    assert enc.bytes == Encode(o);
    body.PutU32(|enc.bytes|);
    body.bytes := body.bytes + enc.bytes;
    var crc := ComputeChecksum(enc.bytes);
    body.PutU32(crc);
    FrameAppended(before, o);
  }

  lemma FrameAppended(before: seq<u8>, o: Observation)
    ensures before + LittleEndian(RECORD_SIZE, 4) + Encode(o) + LittleEndian(Checksum(Encode(o)), 4)
         == before + Frame(o)
  {
    hide Checksum;
    hide Encode;
    hide LittleEndian;
  }

  // ----- what load accepts -----

  function Word32(bytes: seq<u8>, off: nat): (v: u32)
    requires off + 4 <= |bytes|
  {
    PowersOf256();
    FromLittleEndian(bytes[off..off + 4])
  }

  function Word64(bytes: seq<u8>, off: nat): (v: u64)
    requires off + 8 <= |bytes|
  {
    PowersOf256();
    FromLittleEndian(bytes[off..off + 8])
  }

  /** An intact frame starts at `off`. */
  predicate FrameAt(body: seq<u8>, off: nat) {
    && off + FRAME <= |body|
    && Word32(body, off) == RECORD_SIZE
    && Word32(body, off + 4 + RECORD_SIZE) == Checksum(body[off + 4..off + 4 + RECORD_SIZE])
  }

  /** The frames fill the body exactly and every one of them is intact. */
  predicate Intact(body: seq<u8>) {
    && |body| >= HEADER
    && Word32(body, 0) == VERSION
    && |body| == HEADER + FRAME * Word64(body, 20)
    && forall i :: 0 <= i < Word64(body, 20) ==> FrameAt(body, HEADER + FRAME * i)
  }

  function RecordAt(body: seq<u8>, off: nat): Observation
    requires off + FRAME <= |body|
  {
    Decode(body[off + 4..off + 4 + RECORD_SIZE])
  }

  /** The observations in an intact body. */
  function ParseBody(body: seq<u8>): Option<seq<Observation>> {
    if Intact(body)
    then Some(seq(Word64(body, 20), i requires 0 <= i < Word64(body, 20) => RecordAt(body, HEADER + FRAME * i)))
    else None
  }

  function Parse(file: seq<u8>): Option<seq<Observation>> {
    if |file| >= 4 && file[..4] == MAGIC then ParseBody(file[4..]) else None
  }

  /** The strict parser of `load`, with its early exits. */
  method LoadFile(file: seq<u8>) returns (result: Option<seq<Observation>>)
    ensures result == Parse(file)
  {
    if |file| < 4 || file[..4] != MAGIC {
      return None;
    }
    result := LoadBody(file[4..]);
  }

  method LoadBody(body: seq<u8>) returns (result: Option<seq<Observation>>)
    ensures result == ParseBody(body)
  {
    hide FrameAt;
    hide RecordAt;
    hide FromLittleEndian;
    var r := new Reader(body);
    var version := r.U32();
    if !r.ok || version != VERSION {
      return None;
    }
    var epoch := r.U64();
    var generation := r.U64();
    var count := r.U64();
    if !r.ok || count > |body| / 2 {
      return None;
    }
    assert count == Word64(body, 20);
    var obs := [];
    for i := 0 to count
      invariant fresh(r) && r.data == body && r.ok && r.off == HEADER + FRAME * i <= |body|
      invariant |obs| == i
      invariant forall k :: 0 <= k < i ==> FrameAt(body, HEADER + FRAME * k)
      invariant forall k :: 0 <= k < i ==>
        HEADER + FRAME * k + FRAME <= |body| && obs[k] == RecordAt(body, HEADER + FRAME * k)
    {
      var o := LoadFrame(r);
      if o.None? {
        return None;
      }
      obs := obs + [o.value];
    }
    if r.off != |body| {
      return None;
    }
    ParsedBody(body, obs);
    result := Some(obs);
  }

  lemma ParsedBody(body: seq<u8>, obs: seq<Observation>)
    requires Intact(body) && |obs| == Word64(body, 20)
    requires forall k :: 0 <= k < |obs| ==>
      HEADER + FRAME * k + FRAME <= |body| && obs[k] == RecordAt(body, HEADER + FRAME * k)
    ensures ParseBody(body) == Some(obs)
  {
    hide FrameAt;
    hide RecordAt;
    assert ParseBody(body).value == obs;
  }

  /** One pass of the record loop. */
  method LoadFrame(r: Reader) returns (result: Option<Observation>)
    requires r.ok && r.off <= |r.data|
    modifies r
    ensures result.Some? <==> FrameAt(r.data, old(r.off))
    ensures result.Some? ==> r.ok && r.off == old(r.off) + FRAME <= |r.data|
    ensures result.Some? ==> result.value == RecordAt(r.data, old(r.off))
  {
    hide Checksum;
    hide Decode;
    var body, off := r.data, r.off;
    var len := r.U32();
    if !r.ok || len == 0 || len > MAX_LENGTH || r.off + len + 4 > |body| {
      return None;
    }
    var payload := body[r.off..r.off + len];
    var actual := ComputeChecksum(payload);
    r.off := r.off + len;
    var stored := r.U32();
    if !r.ok || actual != stored {
      return None;
    }
    result := DecodeObservation(payload);
    if len == RECORD_SIZE {
      assert payload == body[off + 4..off + 4 + RECORD_SIZE];
    }
  }
}
