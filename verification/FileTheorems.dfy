/** The parser accepts exactly what save writes, and notices every damaged byte it covers. */
module FileTheorems {
  import opened Words
  import opened Observations
  import opened Codec
  import opened Crc32c
  import opened FileFormat

  // ----- stored words -----

  lemma Stored32(bytes: seq<u8>, off: nat, v: u32)
    requires off + 4 <= |bytes|
    ensures Word32(bytes, off) == v <==> bytes[off..off + 4] == LittleEndian(v, 4)
  {
    PowersOf256();
    DecodeAfterEncode(v, 4);
    EncodeAfterDecode(bytes[off..off + 4]);
  }

  lemma Stored64(bytes: seq<u8>, off: nat, v: u64)
    requires off + 8 <= |bytes|
    ensures Word64(bytes, off) == v <==> bytes[off..off + 8] == LittleEndian(v, 8)
  {
    PowersOf256();
    DecodeAfterEncode(v, 8);
    EncodeAfterDecode(bytes[off..off + 8]);
  }

  // ----- a frame is intact exactly when it is the frame of an observation -----

  lemma TwoParts(s: seq<u8>, a: seq<u8>, b: seq<u8>)
    requires |s| == |a| + |b|
    ensures s == a + b <==> s[..|a|] == a && s[|a|..] == b
  {
    assert s == s[..|a|] + s[|a|..];
    assert (a + b)[..|a|] == a && (a + b)[|a|..] == b;
  }

  lemma ThreeParts(s: seq<u8>, a: seq<u8>, b: seq<u8>, c: seq<u8>)
    requires |s| == |a| + |b| + |c|
    ensures s == a + b + c <==> s[..|a|] == a && s[|a|..|a| + |b|] == b && s[|a| + |b|..] == c
  {
    TwoParts(s, a + b, c);
    TwoParts(s[..|a| + |b|], a, b);
    assert s[..|a| + |b|][..|a|] == s[..|a|];
    assert s[..|a| + |b|][|a|..] == s[|a|..|a| + |b|];
  }

  /** The three parts of a frame, wherever it lies. */
  lemma FrameParts(body: seq<u8>, off: nat, o: Observation)
    requires off + FRAME <= |body|
    ensures body[off..off + FRAME] == Frame(o) <==>
      && body[off..off + 4] == LittleEndian(RECORD_SIZE, 4)
      && body[off + 4..off + 4 + RECORD_SIZE] == Encode(o)
      && body[off + 4 + RECORD_SIZE..off + FRAME] == LittleEndian(Checksum(Encode(o)), 4)
  {
    hide Checksum;
    hide Encode;
    hide LittleEndian;
    var piece := body[off..off + FRAME];
    var len, payload, crc := LittleEndian(RECORD_SIZE, 4), Encode(o), LittleEndian(Checksum(Encode(o)), 4);
    assert |len| == 4 && |payload| == RECORD_SIZE && |crc| == 4;
    ThreeParts(piece, len, payload, crc);
    PieceOf(body, off, piece);
    assert Frame(o) == len + payload + crc;
  }

  lemma PieceOf(body: seq<u8>, off: nat, piece: seq<u8>)
    requires off + FRAME <= |body| && piece == body[off..off + FRAME]
    ensures piece[..4] == body[off..off + 4]
    ensures piece[4..4 + RECORD_SIZE] == body[off + 4..off + 4 + RECORD_SIZE]
    ensures piece[4 + RECORD_SIZE..] == body[off + 4 + RECORD_SIZE..off + FRAME]
  {
    SliceOfSlice(body, off, off + FRAME, 0, 4);
    SliceOfSlice(body, off, off + FRAME, 4, 4 + RECORD_SIZE);
    SliceOfSlice(body, off, off + FRAME, 4 + RECORD_SIZE, FRAME);
    assert piece[..4] == piece[0..4] && piece[4 + RECORD_SIZE..] == piece[4 + RECORD_SIZE..FRAME];
  }

  lemma SliceOfSlice(s: seq<u8>, lo: nat, hi: nat, i: nat, j: nat)
    requires lo <= hi <= |s| && i <= j <= hi - lo
    ensures s[lo..hi][i..j] == s[lo + i..lo + j]
  {
    var a, b := s[lo..hi][i..j], s[lo + i..lo + j];
    forall k | 0 <= k < j - i
      ensures a[k] == b[k]
    {
      assert a[k] == s[lo..hi][i + k] == s[lo + i + k] == b[k];
    }
  }

  lemma FrameIsIntact(body: seq<u8>, off: nat, o: Observation)
    requires off + FRAME <= |body| && body[off..off + FRAME] == Frame(o)
    ensures FrameAt(body, off) && RecordAt(body, off) == o
  {
    hide Word32;
    hide Encode;
    hide Decode;
    hide Checksum;
    hide LittleEndian;
    hide Frame;
    DecodeInvertsEncode(o);
    FrameParts(body, off, o);
    Stored32(body, off, RECORD_SIZE);
    Stored32(body, off + 4 + RECORD_SIZE, Checksum(Encode(o)));
  }

  lemma IntactIsFrame(body: seq<u8>, off: nat)
    requires FrameAt(body, off)
    ensures body[off..off + FRAME] == Frame(RecordAt(body, off))
  {
    hide Word32;
    hide Encode;
    hide Decode;
    hide Checksum;
    hide LittleEndian;
    hide Frame;
    var payload := body[off + 4..off + 4 + RECORD_SIZE];
    EncodeInvertsDecode(payload);
    Stored32(body, off, RECORD_SIZE);
    Stored32(body, off + 4 + RECORD_SIZE, Checksum(payload));
    FrameParts(body, off, Decode(payload));
  }

  lemma {:induction false} FrameOfRecord(obs: seq<Observation>, i: nat)
    requires i < |obs|
    ensures FRAME * i + FRAME <= |Frames(obs)|
    ensures Frames(obs)[FRAME * i..FRAME * i + FRAME] == Frame(obs[i])
    decreases |obs|
  {
    hide Frame;
    var n := |obs| - 1;
    if i < n {
      FrameOfRecord(obs[..n], i);
      assert Frames(obs)[..FRAME * n] == Frames(obs[..n]);
    }
  }

  lemma {:induction false} FramesOfPieces(bytes: seq<u8>, obs: seq<Observation>)
    requires |bytes| == FRAME * |obs|
    requires forall i :: 0 <= i < |obs| ==> bytes[FRAME * i..FRAME * i + FRAME] == Frame(obs[i])
    ensures bytes == Frames(obs)
    decreases |obs|
  {
    hide Frame;
    if |obs| > 0 {
      var n := |obs| - 1;
      var init := bytes[..FRAME * n];
      forall i | 0 <= i < n
        ensures init[FRAME * i..FRAME * i + FRAME] == Frame(obs[..n][i])
      {
        assert init[FRAME * i..FRAME * i + FRAME] == bytes[FRAME * i..FRAME * i + FRAME];
      }
      FramesOfPieces(init, obs[..n]);
      assert bytes == init + bytes[FRAME * n..FRAME * n + FRAME];
    }
  }

  // ----- the header -----

  lemma HeaderWords(body: seq<u8>, epoch: u64, generation: u64, count: u64)
    requires |body| >= HEADER
    ensures body[..HEADER] == Header(epoch, generation, count) <==>
      && Word32(body, 0) == VERSION
      && Word64(body, 4) == epoch
      && Word64(body, 12) == generation
      && Word64(body, 20) == count
  {
    hide Header;
    hide LittleEndian;
    hide Word32;
    hide Word64;
    Stored32(body, 0, VERSION);
    Stored64(body, 4, epoch);
    Stored64(body, 12, generation);
    Stored64(body, 20, count);
    HeaderParts(body, epoch, generation, count);
  }

  lemma HeaderParts(body: seq<u8>, epoch: u64, generation: u64, count: u64)
    requires |body| >= HEADER
    ensures body[..HEADER] == Header(epoch, generation, count) <==>
      && body[0..4] == LittleEndian(VERSION, 4)
      && body[4..12] == LittleEndian(epoch, 8)
      && body[12..20] == LittleEndian(generation, 8)
      && body[20..28] == LittleEndian(count, 8)
  {
    var v, e := LittleEndian(VERSION, 4), LittleEndian(epoch, 8);
    var g, c := LittleEndian(generation, 8), LittleEndian(count, 8);
    assert Header(epoch, generation, count) == v + e + g + c;
    hide *;
    TwoParts(body[..HEADER], v + e + g, c);
    TwoParts(body[..20], v + e, g);
    TwoParts(body[..12], v, e);
    assert body[..HEADER][..20] == body[..20] && body[..HEADER][20..] == body[20..28];
    assert body[..20][..12] == body[..12] && body[..20][12..] == body[12..20];
    assert body[..12][..4] == body[0..4] && body[..12][4..] == body[4..12];
  }

  // ----- exact inverse -----

  /** Frame i of a body starts 316*i bytes after the header. */
  lemma FrameInBody(body: seq<u8>, frames: seq<u8>, i: nat)
    requires |body| >= HEADER && frames == body[HEADER..] && FRAME * i + FRAME <= |frames|
    ensures body[HEADER + FRAME * i..HEADER + FRAME * i + FRAME] == frames[FRAME * i..FRAME * i + FRAME]
  {
  }

  lemma RecordInBody(epoch: u64, generation: u64, obs: seq<Observation>, i: nat)
    requires i < |obs|
    ensures var body := Body(epoch, generation, obs);
      && HEADER + FRAME * i + FRAME <= |body|
      && FrameAt(body, HEADER + FRAME * i)
      && RecordAt(body, HEADER + FRAME * i) == obs[i]
  {
    hide Frames;
    hide Frame;
    hide FrameAt;
    hide RecordAt;
    hide Header;
    var body := Body(epoch, generation, obs);
    FrameOfRecord(obs, i);
    assert body[HEADER..] == Frames(obs);
    FrameInBody(body, Frames(obs), i);
    FrameIsIntact(body, HEADER + FRAME * i, obs[i]);
  }

  /** What save writes is read back, record for record. */
  lemma BodyParses(epoch: u64, generation: u64, obs: seq<Observation>)
    requires |obs| < U64_LIMIT
    ensures ParseBody(Body(epoch, generation, obs)) == Some(obs)
  {
    hide FrameAt;
    hide RecordAt;
    hide Header;
    hide Frames;
    var body := Body(epoch, generation, obs);
    assert body[..HEADER] == Header(epoch, generation, |obs|);
    HeaderWords(body, epoch, generation, |obs|);
    forall i | 0 <= i < |obs|
      ensures HEADER + FRAME * i + FRAME <= |body|
      ensures FrameAt(body, HEADER + FRAME * i) && RecordAt(body, HEADER + FRAME * i) == obs[i]
    {
      RecordInBody(epoch, generation, obs, i);
    }
    ParsedBody(body, obs);
  }

  /** Whatever is accepted is what save writes for the observations it returns. */
  lemma ParsedIsBody(body: seq<u8>)
    requires ParseBody(body).Some?
    ensures body == Body(Word64(body, 4), Word64(body, 12), ParseBody(body).value)
  {
    hide FrameAt;
    hide RecordAt;
    hide Frames;
    hide Frame;
    var obs := ParseBody(body).value;
    HeaderWords(body, Word64(body, 4), Word64(body, 12), |obs|);
    forall i | 0 <= i < |obs|
      ensures body[HEADER..][FRAME * i..FRAME * i + FRAME] == Frame(obs[i])
    {
      IntactFrameFits(body, i);
      IntactIsFrame(body, HEADER + FRAME * i);
      FrameInBody(body, body[HEADER..], i);
    }
    FramesOfPieces(body[HEADER..], obs);
    TwoParts(body, body[..HEADER], body[HEADER..]);
  }

  lemma IntactFrameFits(body: seq<u8>, i: nat)
    requires Intact(body) && i < Word64(body, 20)
    ensures FrameAt(body, HEADER + FRAME * i) && HEADER + FRAME * i + FRAME <= |body|
  {
  }

  /** `load` accepts a file if and only if it is the serialization of what it returns. */
  lemma ParserIsExactInverse(file: seq<u8>, obs: seq<Observation>)
    ensures Parse(file) == Some(obs)
      <==> |obs| < U64_LIMIT && exists epoch: u64, generation: u64 :: file == File(epoch, generation, obs)
  {
    hide Intact;
    if Parse(file) == Some(obs) {
      ParsedIsBody(file[4..]);
      assert |obs| < U64_LIMIT by { ParsedCount(file[4..]); }
      assert file == File(Word64(file[4..], 4), Word64(file[4..], 12), obs);
    }
    if |obs| < U64_LIMIT {
      forall epoch: u64, generation: u64 | file == File(epoch, generation, obs)
        ensures Parse(file) == Some(obs)
      {
        assert file[..4] == MAGIC && file[4..] == Body(epoch, generation, obs);
        BodyParses(epoch, generation, obs);
      }
    }
  }

  lemma ParsedCount(body: seq<u8>)
    requires ParseBody(body).Some?
    ensures |body| >= HEADER && |ParseBody(body).value| == Word64(body, 20) < U64_LIMIT
  {
  }

  // ----- layout -----

  /** Where everything lies in a file: "UOBF", version 1, epoch, generation, count, then 316 bytes a record. */
  lemma FileLayout(epoch: u64, generation: u64, obs: seq<Observation>)
    requires |obs| < U64_LIMIT
    ensures var file := File(epoch, generation, obs);
      && |file| == 32 + 316 * |obs|
      && file[0..4] == [0x55, 0x4F, 0x42, 0x46]
      && file[4..8] == LittleEndian(1, 4)
      && file[8..16] == LittleEndian(epoch, 8)
      && file[16..24] == LittleEndian(generation, 8)
      && file[24..32] == LittleEndian(|obs|, 8)
  {
    hide LittleEndian;
    FileStarts(epoch, generation, obs);
    var file, body := File(epoch, generation, obs), Body(epoch, generation, obs);
    hide File;
    hide Body;
    HeaderParts(body, epoch, generation, |obs|);
    hide Header;
    assert file[4..8] == body[0..4] && file[8..16] == body[4..12] && file[16..24] == body[12..20];
    assert file[24..32] == body[20..28];
  }

  lemma FileStarts(epoch: u64, generation: u64, obs: seq<Observation>)
    requires |obs| < U64_LIMIT
    ensures var file, body := File(epoch, generation, obs), Body(epoch, generation, obs);
      && |file| == 32 + 316 * |obs| && |body| >= HEADER
      && file[0..4] == MAGIC && file[4..] == body && body[..HEADER] == Header(epoch, generation, |obs|)
  {
    hide Frames;
    hide Header;
    assert |obs| % U64_LIMIT == |obs|;
  }

  /** Record i: its length, the record, its checksum. */
  lemma RecordLies(epoch: u64, generation: u64, obs: seq<Observation>, i: nat)
    requires i < |obs|
    ensures var file, at := File(epoch, generation, obs), 32 + 316 * i;
      && at + 316 <= |file|
      && file[at..at + 4] == LittleEndian(308, 4)
      && file[at + 4..at + 312] == Encode(obs[i])
      && file[at + 312..at + 316] == LittleEndian(Checksum(Encode(obs[i])), 4)
  {
    hide Header;
    hide Frame;
    hide Encode;
    hide Checksum;
    hide LittleEndian;
    var file, body := File(epoch, generation, obs), Body(epoch, generation, obs);
    var off := HEADER + FRAME * i;
    FrameOfRecord(obs, i);
    assert file[4..] == body && body[HEADER..] == Frames(obs);
    hide Frames;
    FrameInBody(body, body[HEADER..], i);
    FrameParts(body, off, obs[i]);
    assert file[off + 4..off + 8] == body[off..off + 4];
    assert file[off + 8..off + 316] == body[off + 4..off + 312];
    assert file[off + 316..off + 320] == body[off + 312..off + 316];
  }

  // ----- damage -----

  /** No proper extension of a saved file is accepted. */
  lemma NoExtension(file: seq<u8>, rest: seq<u8>)
    requires Parse(file).Some? && rest != []
    ensures Parse(file + rest).None?
  {
    hide FrameAt;
    var body, longer := file[4..], (file + rest)[4..];
    assert longer == body + rest;
    assert longer[20..28] == body[20..28];
  }

  /** No proper prefix of a saved file is accepted. */
  lemma NoPrefix(file: seq<u8>, n: nat)
    requires Parse(file).Some? && n < |file|
    ensures Parse(file[..n]).None?
  {
    hide Parse;
    assert file[..n] + file[n..] == file;
    if Parse(file[..n]).Some? {
      NoExtension(file[..n], file[n..]);
    }
  }

  /** The epoch and generation fields, which nothing checks. */
  predicate Uncovered(p: int) {
    8 <= p < 24
  }

  /** The files have one length and differ within four consecutive bytes at most. */
  ghost predicate DifferWithin(file: seq<u8>, other: seq<u8>, k: int) {
    |other| == |file| && forall p :: 0 <= p < |file| && !(k <= p < k + 4) ==> file[p] == other[p]
  }

  ghost predicate DifferOnlyUncovered(file: seq<u8>, other: seq<u8>)
    requires |other| == |file|
  {
    forall p :: 0 <= p < |file| && file[p] != other[p] ==> Uncovered(p)
  }

  /**
   Damage to a file that parses, confined to four consecutive bytes anywhere, is noticed if and only
   if some changed byte is outside the two unchecked fields.
   */
  lemma BurstIsDetected(file: seq<u8>, other: seq<u8>, k: nat)
    requires Parse(file).Some? && DifferWithin(file, other, k)
    ensures Parse(other).Some? <==> DifferOnlyUncovered(file, other)
    ensures DifferOnlyUncovered(file, other) ==> Parse(other) == Parse(file)
  {
    hide Parse;
    if DifferOnlyUncovered(file, other) {
      UncoveredIsFree(file, other);
    } else {
      var p :| 0 <= p < |file| && file[p] != other[p] && !Uncovered(p);
      CoveredIsNoticed(file, other, k, p);
    }
  }

  /** One changed byte is noticed if and only if it is outside the two unchecked fields. */
  lemma DamageIsDetected(file: seq<u8>, p: nat, b: u8)
    requires Parse(file).Some? && p < |file| && file[p] != b
    ensures Parse(file[p := b]).Some? <==> Uncovered(p)
    ensures Uncovered(p) ==> Parse(file[p := b]) == Parse(file)
  {
    hide Parse;
    BurstIsDetected(file, file[p := b], p);
    assert file[p := b][p] != file[p];
  }

  /** Whatever the epoch and generation fields say, the records are the same. */
  lemma UncoveredIsFree(file: seq<u8>, other: seq<u8>)
    requires Parse(file).Some? && |other| == |file| && DifferOnlyUncovered(file, other)
    ensures Parse(other) == Parse(file)
  {
    hide Intact;
    hide FrameAt;
    hide RecordAt;
    assert other[..4] == file[..4];
    SameBody(file[4..], other[4..]);
  }

  lemma SameBody(body: seq<u8>, other: seq<u8>)
    requires ParseBody(body).Some? && |other| == |body|
    requires forall p :: 0 <= p < |body| && !(4 <= p < 20) ==> body[p] == other[p]
    ensures ParseBody(other) == ParseBody(body)
  {
    hide FrameAt;
    hide RecordAt;
    assert other[0..4] == body[0..4] && other[20..28] == body[20..28];
    forall i | 0 <= i < Word64(body, 20)
      ensures FrameAt(other, HEADER + FRAME * i) && HEADER + FRAME * i + FRAME <= |body|
      ensures RecordAt(other, HEADER + FRAME * i) == RecordAt(body, HEADER + FRAME * i)
    {
      IntactFrameFits(body, i);
      SameFrame(body, other, HEADER + FRAME * i);
    }
    ParsedBody(other, ParseBody(body).value);
  }

  lemma SameFrame(body: seq<u8>, other: seq<u8>, off: nat)
    requires off + FRAME <= |body| == |other|
    requires forall i :: off <= i < off + FRAME ==> body[i] == other[i]
    ensures FrameAt(other, off) <==> FrameAt(body, off)
    ensures RecordAt(other, off) == RecordAt(body, off)
  {
    assert other[off..off + 4] == body[off..off + 4];
    assert other[off + 4..off + 4 + RECORD_SIZE] == body[off + 4..off + 4 + RECORD_SIZE];
    var crc := off + 4 + RECORD_SIZE;
    assert other[crc..crc + 4] == body[crc..crc + 4];
  }

  lemma CoveredIsNoticed(file: seq<u8>, other: seq<u8>, k: nat, p: nat)
    requires Parse(file).Some? && DifferWithin(file, other, k)
    requires p < |file| && file[p] != other[p] && !Uncovered(p)
    ensures Parse(other).None?
  {
    hide ParseBody;
    if p < 4 {
      assert file[..4][p] != other[..4][p];
    } else {
      var body, body' := file[4..], other[4..];
      assert forall q :: 0 <= q < |body| ==> body[q] == file[q + 4] && body'[q] == other[q + 4];
      CoveredInBody(body, body', k - 4, p - 4);
    }
  }

  lemma CoveredInBody(body: seq<u8>, other: seq<u8>, k: int, p: nat)
    requires ParseBody(body).Some? && DifferWithin(body, other, k)
    requires p < |body| && body[p] != other[p] && !(4 <= p < 20)
    ensures ParseBody(other).None?
  {
    hide FrameAt;
    if p < 4 {
      DifferentWords32(body, other, 0, p);
    } else if p < HEADER {
      DifferentWords64(body, other, 20, p);
    } else {
      var i := (p - HEADER) / FRAME;
      assert HEADER + FRAME * i <= p < HEADER + FRAME * i + FRAME;
      IntactFrameFits(body, i);
      BrokenFrame(body, other, HEADER + FRAME * i, k, p);
      if Intact(other) {
        IntactFrameFits(other, i);
      }
    }
  }

  lemma DifferentWords32(a: seq<u8>, b: seq<u8>, off: nat, p: nat)
    requires off <= p < off + 4 <= |a| == |b| && a[p] != b[p]
    ensures Word32(a, off) != Word32(b, off)
  {
    Stored32(a, off, Word32(a, off));
    Stored32(b, off, Word32(b, off));
    assert a[off..off + 4][p - off] != b[off..off + 4][p - off];
  }

  lemma DifferentWords64(a: seq<u8>, b: seq<u8>, off: nat, p: nat)
    requires off <= p < off + 8 <= |a| == |b| && a[p] != b[p]
    ensures Word64(a, off) != Word64(b, off)
  {
    Stored64(a, off, Word64(a, off));
    Stored64(b, off, Word64(b, off));
    assert a[off..off + 8][p - off] != b[off..off + 8][p - off];
  }

  /** What the checksum of a frame covers, followed by the checksum. */
  function Sealed(body: seq<u8>, off: nat): seq<u8>
    requires off + FRAME <= |body|
  {
    body[off + 4..off + FRAME]
  }

  /** A frame of the right length is intact exactly when payload and stored checksum leave the residue. */
  lemma IntactByResidue(body: seq<u8>, off: nat)
    requires off + FRAME <= |body|
    ensures FrameAt(body, off) <==> Word32(body, off) == RECORD_SIZE && Feed(Seed(), Sealed(body, off)) == Residue()
  {
    hide Feed;
    hide Checksum;
    hide Residue;
    hide FromLittleEndian;
    var crc := off + 4 + RECORD_SIZE;
    assert Sealed(body, off) == body[off + 4..crc] + body[crc..crc + 4];
    ResidueDecides(body[off + 4..crc], body[crc..crc + 4]);
  }

  /** A short burst that reaches into an intact frame, over any of its parts, breaks it. */
  lemma BrokenFrame(body: seq<u8>, other: seq<u8>, off: nat, k: int, p: nat)
    requires FrameAt(body, off) && DifferWithin(body, other, k)
    requires off <= p < off + FRAME && body[p] != other[p]
    ensures !FrameAt(other, off)
  {
    hide FrameAt;
    hide Feed;
    hide Residue;
    assert off + FRAME <= |body| by { FrameFits(body, off); }
    IntactByResidue(body, off);
    IntactByResidue(other, off);
    if p < off + 4 {
      DifferentWords32(body, other, off, p);
    } else {
      var a, b := Sealed(body, off), Sealed(other, off);
      assert forall i :: 0 <= i < |a| ==> a[i] == body[off + 4 + i] && b[i] == other[off + 4 + i];
      assert a[p - off - 4] != b[p - off - 4];
      BurstChangesRegister(Seed(), a, b, if k < off + 4 then 0 else k - off - 4);
    }
  }

  lemma FrameFits(body: seq<u8>, off: nat)
    requires FrameAt(body, off)
    ensures off + FRAME <= |body|
  {
  }
}
