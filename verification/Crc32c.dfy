/**
 The bit-by-bit reflected CRC-32C (the checksum section 12.1 of RFC 3720 calls
 CRC32C), and what it detects: any change confined to four consecutive bytes.
 */
module Crc32c {
  import opened Words
  import opened Bits
  import opened Folds

  const WIDTH: nat := 32
  const BYTE: nat := 8

  /** A uint32 register, lowest bit first. */
  type Register = bits: Bits | |bits| == WIDTH witness Zeros(WIDTH)

  /** The one bits of 0x82F63B78: bit i is the coefficient of x^(31-i). */
  predicate Tap(i: int) {
    3 <= i <= 6 || 8 <= i <= 9 || 11 <= i <= 13 || 17 <= i <= 18 || 20 <= i <= 23 || i == 25 || i == 31
  }

  function Polynomial(): Register {
    seq(WIDTH, i => Tap(i))
  }

  /** 0xFFFFFFFF, which is both the initial register and the final xor. */
  function Seed(): Register {
    seq(WIDTH, _ => true)
  }

  // ----- the checksum -----

  /** Shift right by one and, when a one fell out, xor `p` in. */
  function ShiftXor(c: Register, p: Register): Register {
    Xor(c[1..] + [false], if c[0] then p else Zeros(WIDTH))
  }

  function Round(c: Register): Register {
    ShiftXor(c, Polynomial())
  }

  function Rounds(c: Register, n: nat): Register {
    if n == 0 then c else Round(Rounds(c, n - 1))
  }

  /** The register after one byte. */
  function Absorb(c: Register, b: u8): Register {
    Rounds(Xor(c, Widen(b, WIDTH)), BYTE)
  }

  /** The register after `data`. */
  function Feed(seed: Register, data: seq<u8>): Register {
    Fold(Absorb, seed, data)
  }

  function RegisterValue(c: Register): u32 {
    Power2Values();
    Value(c)
  }

  function Checksum(data: seq<u8>): u32 {
    RegisterValue(Xor(Feed(Seed(), data), Seed()))
  }

  /** The nested byte and bit loops, updating one register in place. */
  method ComputeRegister(seed: Register, data: seq<u8>) returns (crc: Register)
    ensures crc == Feed(seed, data)
  {
    crc := seed;
    for i := 0 to |data|
      invariant crc == Feed(seed, data[..i])
    {
      assert data[..i + 1][..i] == data[..i];
      crc := Xor(crc, Widen(data[i], WIDTH));
      ghost var start := crc;
      for b := 0 to BYTE
        invariant crc == Rounds(start, b)
      {
        crc := ShiftXor(crc, Polynomial());
      }
    }
    assert data[..|data|] == data;
  }

  method ComputeChecksum(data: seq<u8>) returns (crc: u32)
    ensures crc == Checksum(data)
  {
    var register := ComputeRegister(Seed(), data);
    crc := RegisterValue(Xor(register, Seed()));
  }

  lemma PolynomialIsTheConstant()
    ensures RegisterValue(Polynomial()) == 0x82F63B78
  {
    PolynomialNibbles();
    ValueByNibbles(Polynomial());
  }

  lemma SeedIsTheConstant()
    ensures RegisterValue(Seed()) == 0xFFFFFFFF
  {
    SeedNibbles();
    ValueByNibbles(Seed());
  }

  lemma PolynomialNibbles()
    ensures var c := Polynomial();
      Nibble(c, 0) == 8 && Nibble(c, 1) == 7 && Nibble(c, 2) == 11 && Nibble(c, 3) == 3
      && Nibble(c, 4) == 6 && Nibble(c, 5) == 15 && Nibble(c, 6) == 2 && Nibble(c, 7) == 8
  {
  }

  lemma SeedNibbles()
    ensures forall k :: 0 <= k < 8 ==> Nibble(Seed(), k) == 15
  {
  }

  function Nibble(c: Register, k: nat): nat
    requires k < 8
  {
    Digit(c[4 * k]) + 2 * Digit(c[4 * k + 1]) + 4 * Digit(c[4 * k + 2]) + 8 * Digit(c[4 * k + 3])
  }

  lemma ValueByNibbles(c: Register)
    ensures Value(c) == Nibble(c, 0) + 0x10 * Nibble(c, 1) + 0x100 * Nibble(c, 2) + 0x1000 * Nibble(c, 3)
      + 0x1_0000 * (Nibble(c, 4) + 0x10 * Nibble(c, 5) + 0x100 * Nibble(c, 6) + 0x1000 * Nibble(c, 7))
  {
    hide Nibble;
    ValueOfNothing(c[32..]);
    hide Value;
    FourNibbles(c, 0);
    FourNibbles(c, 4);
    assert c[0..] == c;
  }

  lemma ValueOfNothing(bits: Bits)
    requires bits == []
    ensures Value(bits) == 0
  {
  }

  lemma FourNibbles(c: Register, k: nat)
    requires k <= 4
    ensures Value(c[4 * k..]) == Nibble(c, k) + 0x10 * Nibble(c, k + 1) + 0x100 * Nibble(c, k + 2)
      + 0x1000 * Nibble(c, k + 3) + 0x1_0000 * Value(c[4 * k + 16..])
  {
    hide Value;
    hide Nibble;
    NibbleStep(c, k);
    NibbleStep(c, k + 1);
    NibbleStep(c, k + 2);
    NibbleStep(c, k + 3);
  }

  lemma NibbleStep(c: Register, k: nat)
    requires k < 8
    ensures Value(c[4 * k..]) == Nibble(c, k) + 16 * Value(c[4 * k + 4..])
  {
    ValueStep(c, 4 * k);
    ValueStep(c, 4 * k + 1);
    ValueStep(c, 4 * k + 2);
    ValueStep(c, 4 * k + 3);
  }

  lemma ValueStep(c: Register, i: nat)
    requires i < WIDTH
    ensures Value(c[i..]) == Digit(c[i]) + 2 * Value(c[i + 1..])
  {
    assert c[i..][1..] == c[i + 1..];
  }

  // ----- injectivity -----

  lemma ShiftXorAt(c: Register, p: Register, i: nat)
    requires i < WIDTH
    ensures ShiftXor(c, p)[i] == ((i + 1 < WIDTH && c[i + 1]) != (c[0] && p[i]))
  {
  }

  lemma ShiftXorInjective(c: Register, d: Register, p: Register)
    requires p[WIDTH - 1]
    requires ShiftXor(c, p) == ShiftXor(d, p)
    ensures c == d
  {
    ShiftXorAt(c, p, WIDTH - 1);
    ShiftXorAt(d, p, WIDTH - 1);
    forall i | 0 < i < WIDTH
      ensures c[i] == d[i]
    {
      ShiftXorAt(c, p, i - 1);
      ShiftXorAt(d, p, i - 1);
    }
  }

  /** The polynomial has its top bit set, so a round can be undone. */
  lemma RoundInjective(c: Register, d: Register)
    requires Round(c) == Round(d)
    ensures c == d
  {
    ShiftXorInjective(c, d, Polynomial());
  }

  lemma {:induction false} RoundsInjective(c: Register, d: Register, n: nat)
    requires Rounds(c, n) == Rounds(d, n)
    ensures c == d
  {
    hide Round;
    if n > 0 {
      RoundInjective(Rounds(c, n - 1), Rounds(d, n - 1));
      RoundsInjective(c, d, n - 1);
    }
  }

  lemma AbsorbIsInjective()
    ensures RegisterInjective(Absorb) && ByteInjective(Absorb)
  {
    forall c: Register, d: Register, b: u8 | Absorb(c, b) == Absorb(d, b)
      ensures c == d
    {
      RoundsInjective(Xor(c, Widen(b, WIDTH)), Xor(d, Widen(b, WIDTH)), BYTE);
      XorCancels(c, d, Widen(b, WIDTH));
    }
    forall c: Register, a: u8, b: u8 | Absorb(c, a) == Absorb(c, b)
      ensures a == b
    {
      RoundsInjective(Xor(c, Widen(a, WIDTH)), Xor(c, Widen(b, WIDTH)), BYTE);
      XorCancels(Widen(a, WIDTH), Widen(b, WIDTH), c);
      WidenInjective(a, b, WIDTH);
    }
  }

  // ----- xor-linearity -----

  lemma ShiftXorLinear(c: Register, d: Register, p: Register)
    ensures ShiftXor(Xor(c, d), p) == Xor(ShiftXor(c, p), ShiftXor(d, p))
  {
    forall i | 0 <= i < WIDTH
      ensures ShiftXor(Xor(c, d), p)[i] == Xor(ShiftXor(c, p), ShiftXor(d, p))[i]
    {
      ShiftXorAt(Xor(c, d), p, i);
      ShiftXorAt(c, p, i);
      ShiftXorAt(d, p, i);
    }
  }

  lemma {:induction false} RoundsLinear(c: Register, d: Register, n: nat)
    ensures Rounds(Xor(c, d), n) == Xor(Rounds(c, n), Rounds(d, n))
  {
    hide ShiftXor;
    hide Polynomial;
    if n > 0 {
      RoundsLinear(c, d, n - 1);
      ShiftXorLinear(Rounds(c, n - 1), Rounds(d, n - 1), Polynomial());
    }
  }

  lemma {:induction false} RoundsAdd(c: Register, m: nat, n: nat)
    ensures Rounds(Rounds(c, m), n) == Rounds(c, m + n)
  {
    if n > 0 {
      RoundsAdd(c, m, n - 1);
    }
  }

  /** With a zero at the bottom, a round only shifts. */
  lemma RoundShifts(bits: Bits, n: nat)
    requires n > 0 && n + |bits| == WIDTH
    ensures Round(Zeros(n) + bits) == Zeros(n - 1) + (bits + [false])
  {
    hide Polynomial;
    var c: Register := Zeros(n) + bits;
    var d: Register := Zeros(n - 1) + (bits + [false]);
    forall i | 0 <= i < WIDTH
      ensures Round(c)[i] == d[i]
    {
      ShiftXorAt(c, Polynomial(), i);
    }
  }

  /** Bits entering above position `n` come down unchanged in `n` rounds. */
  lemma {:induction false} RoundsShift(bits: Bits, n: nat)
    requires n + |bits| == WIDTH
    ensures Rounds(Zeros(n) + bits, n) == bits + Zeros(n)
    decreases n
  {
    hide Round;
    if n == 0 {
      assert Zeros(0) + bits == bits == bits + Zeros(0);
    } else {
      var c: Register := Zeros(n) + bits;
      RoundShifts(bits, n);
      RoundsShift(bits + [false], n - 1);
      assert (bits + [false]) + Zeros(n - 1) == bits + Zeros(n);
      RoundsAdd(c, 1, n - 1);
      assert Rounds(c, 1) == Round(Rounds(c, 0));
    }
  }

  /** Up to four bytes side by side in a register, first byte lowest. */
  function Pack(bytes: seq<u8>): (bits: Bits)
    ensures |bits| == 8 * |bytes|
  {
    if |bytes| == 0 then [] else Binary(bytes[0], 8) + Pack(bytes[1..])
  }

  function Packed(bytes: seq<u8>): Register
    requires |bytes| <= 4
  {
    Pack(bytes) + Zeros(WIDTH - 8 * |bytes|)
  }

  /** The bytes after the first, eight bits up. */
  function Later(rest: seq<u8>): Register
    requires |rest| <= 3
  {
    Zeros(8) + Pack(rest) + Zeros(WIDTH - 8 - 8 * |rest|)
  }

  lemma PackedSplits(bytes: seq<u8>)
    requires 0 < |bytes| <= 4
    ensures Xor(Widen(bytes[0], WIDTH), Later(bytes[1..])) == Packed(bytes)
  {
  }

  lemma LaterComesDown(rest: seq<u8>)
    requires |rest| <= 3
    ensures Rounds(Later(rest), 8) == Packed(rest)
  {
    var high := Pack(rest) + Zeros(WIDTH - 8 - 8 * |rest|);
    assert Later(rest) == Zeros(8) + high;
    RoundsShift(high, 8);
    assert high + Zeros(8) == Packed(rest);
  }

  /** Feeding up to four bytes is xoring them in at once and then doing all the rounds. */
  lemma {:induction false} FeedPacked(seed: Register, bytes: seq<u8>)
    requires |bytes| <= 4
    ensures Feed(seed, bytes) == Rounds(Xor(seed, Packed(bytes)), 8 * |bytes|)
    decreases |bytes|
  {
    if |bytes| == 0 {
      assert Xor(seed, Packed(bytes)) == seed;
    } else {
      FeedPacked(Absorb(seed, bytes[0]), bytes[1..]);
      FeedHead(seed, bytes);
      FeedPackedStep(seed, bytes);
    }
  }

  lemma FeedHead(seed: Register, bytes: seq<u8>)
    requires |bytes| > 0
    ensures Feed(seed, bytes) == Feed(Absorb(seed, bytes[0]), bytes[1..])
  {
    assert bytes == [] + [bytes[0]] + bytes[1..];
    FoldAround(Absorb, seed, [], bytes[0], bytes[1..]);
  }

  lemma FeedPackedStep(seed: Register, bytes: seq<u8>)
    requires 0 < |bytes| <= 4
    ensures Rounds(Xor(Absorb(seed, bytes[0]), Packed(bytes[1..])), 8 * |bytes[1..]|)
         == Rounds(Xor(seed, Packed(bytes)), 8 * |bytes|)
  {
    var rest, head := bytes[1..], Widen(bytes[0], WIDTH);
    var start: Register := Xor(seed, head);
    LaterComesDown(rest);
    RoundsLinear(start, Later(rest), BYTE);
    RoundsAdd(Xor(start, Later(rest)), BYTE, 8 * |rest|);
    PackedSplits(bytes);
    XorAssociates(seed, head, Later(rest));
  }

  lemma {:induction false} PackInjective(a: seq<u8>, b: seq<u8>)
    requires |a| == |b|
    requires Pack(a) == Pack(b)
    ensures a == b
    decreases |a|
  {
    if |a| > 0 {
      assert Binary(a[0], 8) == Pack(a)[..8] == Pack(b)[..8] == Binary(b[0], 8);
      assert Pack(a[1..]) == Pack(a)[8..] == Pack(b)[8..] == Pack(b[1..]);
      Power2Values();
      ValueOfBinary(a[0], 8);
      ValueOfBinary(b[0], 8);
      PackInjective(a[1..], b[1..]);
      assert a == [a[0]] + a[1..] && b == [b[0]] + b[1..];
    }
  }

  lemma FeedShortInjective(seed: Register, a: seq<u8>, b: seq<u8>)
    requires |a| == |b| <= 4
    requires Feed(seed, a) == Feed(seed, b)
    ensures a == b
  {
    FeedPacked(seed, a);
    FeedPacked(seed, b);
    RoundsInjective(Xor(seed, Packed(a)), Xor(seed, Packed(b)), 8 * |a|);
    XorCancels(Packed(a), Packed(b), seed);
    assert Pack(a) == Packed(a)[..8 * |a|] == Packed(b)[..8 * |a|] == Pack(b);
    PackInjective(a, b);
  }

  lemma ChecksumDecidesRegister(a: seq<u8>, b: seq<u8>)
    requires Checksum(a) == Checksum(b)
    ensures Feed(Seed(), a) == Feed(Seed(), b)
  {
    BinaryOfValue(Xor(Feed(Seed(), a), Seed()));
    BinaryOfValue(Xor(Feed(Seed(), b), Seed()));
    XorCancels(Feed(Seed(), a), Feed(Seed(), b), Seed());
  }

  /** Up to four bytes can be told apart by the register, whatever was fed before and after them. */
  lemma {:induction false} FeedTellsBurstsApart(seed: Register, before: seq<u8>, burst: seq<u8>, burst': seq<u8>,
                                                after: seq<u8>)
    requires |burst| == |burst'| <= 4
    ensures Feed(seed, before + burst + after) == Feed(seed, before + burst' + after) <==> burst == burst'
  {
    if Feed(seed, before + burst + after) == Feed(seed, before + burst' + after) {
      var c := Feed(seed, before);
      FoldConcatenation(Absorb, seed, before + burst, after);
      FoldConcatenation(Absorb, seed, before + burst', after);
      FoldConcatenation(Absorb, seed, before, burst);
      FoldConcatenation(Absorb, seed, before, burst');
      AbsorbIsInjective();
      FoldInjective(Absorb, Feed(c, burst), Feed(c, burst'), after);
      FeedShortInjective(c, burst, burst');
    }
  }

  /** A change confined to at most four consecutive bytes always changes the checksum. */
  lemma {:induction false} BurstDetected(before: seq<u8>, burst: seq<u8>, burst': seq<u8>, after: seq<u8>)
    requires |burst| == |burst'| <= 4
    ensures Checksum(before + burst + after) == Checksum(before + burst' + after) <==> burst == burst'
  {
    if Checksum(before + burst + after) == Checksum(before + burst' + after) {
      ChecksumDecidesRegister(before + burst + after, before + burst' + after);
      FeedTellsBurstsApart(Seed(), before, burst, burst', after);
    }
  }

  /** Two byte strings of one length that differ, and only within four places, leave different registers. */
  lemma BurstChangesRegister(seed: Register, a: seq<u8>, b: seq<u8>, k: nat)
    requires |a| == |b| && a != b
    requires forall i :: 0 <= i < |a| && !(k <= i < k + 4) ==> a[i] == b[i]
    ensures Feed(seed, a) != Feed(seed, b)
  {
    var lo := if k <= |a| then k else |a|;
    var hi := if k + 4 <= |a| then k + 4 else |a|;
    assert a == a[..lo] + a[lo..hi] + a[hi..];
    assert b == a[..lo] + b[lo..hi] + a[hi..];
    FeedTellsBurstsApart(seed, a[..lo], a[lo..hi], b[lo..hi], a[hi..]);
  }

  // ----- a record followed by its checksum -----

  /** The register that any data followed by its own stored checksum leaves. */
  function Residue(): Register {
    Rounds(Seed(), WIDTH)
  }

  lemma {:induction false} PackDenotes(bytes: seq<u8>)
    ensures Value(Pack(bytes)) == FromLittleEndian(bytes)
  {
    if |bytes| > 0 {
      var low, rest := Binary(bytes[0], 8), Pack(bytes[1..]);
      PackDenotes(bytes[1..]);
      ValueOfConcatenation(low, rest);
      Power2Values();
      ValueOfBinary(bytes[0], 8);
    }
  }

  lemma SameValueSameBits(a: Bits, b: Bits)
    requires |a| == |b| && Value(a) == Value(b)
    ensures a == b
  {
    BinaryOfValue(a);
    BinaryOfValue(b);
  }

  lemma XorMoves(a: Bits, b: Bits, c: Bits)
    requires |a| == |b| == |c|
    ensures Xor(a, b) == c <==> b == Xor(a, c)
  {
    assert Xor(a, Xor(a, b)) == b && Xor(a, Xor(a, c)) == c;
  }

  /** Four stored bytes are the checksum of the data before them exactly when both together leave the residue. */
  lemma {:induction false} ResidueDecides(data: seq<u8>, stored: seq<u8>)
    requires |stored| == 4
    ensures FromLittleEndian(stored) == Checksum(data) <==> Feed(Seed(), data + stored) == Residue()
  {
    hide Rounds;
    hide Pack;
    hide Value;
    hide Fold;
    var c, p := Feed(Seed(), data), Packed(stored);
    assert p == Pack(stored);
    PackDenotes(stored);
    FoldConcatenation(Absorb, Seed(), data, stored);
    FeedPacked(c, stored);
    XorMoves(c, p, Seed());
    if Feed(Seed(), data + stored) == Residue() {
      RoundsInjective(Xor(c, p), Seed(), WIDTH);
    }
    if FromLittleEndian(stored) == Checksum(data) {
      SameValueSameBits(p, Xor(c, Seed()));
    }
  }
}
