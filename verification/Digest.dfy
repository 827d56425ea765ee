/** The FNV-1a 64-bit digest: xor a byte in, multiply by an odd constant modulo 2^64. */
module Digest {
  import opened Words
  import opened Bits
  import opened Folds

  const OFFSET_BASIS: u64 := 0xcbf29ce484222325
  const PRIME: u64 := 0x100000001b3
  /** PRIME * PRIME_INVERSE is 1 modulo 2^64; it exists because PRIME is odd. */
  const PRIME_INVERSE: u64 := 0xce965057aff6957b

  function XorByte(a: u8, b: u8): u8 {
    Power2Values();
    Value(Xor(Binary(a, 8), Binary(b, 8)))
  }

  /** A uint64 xor a byte: only the low byte changes. */
  function XorLow(h: u64, b: u8): u64 {
    U8_LIMIT * (h / U8_LIMIT) + XorByte(h % U8_LIMIT, b)
  }

  function Multiply(h: u64): u64 {
    (h * PRIME) % U64_LIMIT
  }

  function Mix(h: u64, b: u8): u64 {
    Multiply(XorLow(h, b))
  }

  function DigestOf(seed: u64, data: seq<u8>): u64 {
    Fold(Mix, seed, data)
  }

  /** The running digest. */
  class Digest64 {
    var h: u64

    constructor ()
      ensures h == OFFSET_BASIS
    {
      h := OFFSET_BASIS;
    }

    method Put(data: seq<u8>)
      modifies this
      ensures h == DigestOf(old(h), data)
    {
      for i := 0 to |data|
        invariant h == DigestOf(old(h), data[..i])
      {
        assert data[..i + 1][..i] == data[..i];
        h := XorLow(h, data[i]);
        h := (h * PRIME) % U64_LIMIT;
      }
      assert data[..|data|] == data;
    }
  }

  lemma MultiplyInjective(g: u64, h: u64)
    requires Multiply(g) == Multiply(h)
    ensures g == h
  {
    Unmultiply(g);
    Unmultiply(h);
  }

  /** Multiplying by the inverse undoes the multiplication. */
  lemma Unmultiply(h: u64)
    ensures (Multiply(h) * PRIME_INVERSE) % U64_LIMIT == h
  {
    var q := h * PRIME / U64_LIMIT;
    assert Multiply(h) == h * PRIME - q * U64_LIMIT;
    var k := (PRIME * PRIME_INVERSE - 1) / U64_LIMIT;
    assert PRIME * PRIME_INVERSE == 1 + k * U64_LIMIT;
    var m := h * k - q * PRIME_INVERSE;
    assert Multiply(h) * PRIME_INVERSE == h + m * U64_LIMIT;
    RemainderOfSum(h, m);
  }

  lemma RemainderOfSum(h: u64, m: int)
    ensures (h + m * U64_LIMIT) % U64_LIMIT == h
  {
  }

  lemma XorByteInjective(a: u8, a': u8, b: u8)
    ensures XorByte(a, b) == XorByte(a', b) ==> a == a'
    ensures XorByte(b, a) == XorByte(b, a') ==> a == a'
  {
    Power2Values();
    ValueOfBinary(a, 8);
    ValueOfBinary(a', 8);
    var x, x', y := Binary(a, 8), Binary(a', 8), Binary(b, 8);
    BinaryOfValue(Xor(x, y));
    BinaryOfValue(Xor(x', y));
    BinaryOfValue(Xor(y, x));
    BinaryOfValue(Xor(y, x'));
    if XorByte(a, b) == XorByte(a', b) || XorByte(b, a) == XorByte(b, a') {
      XorCancels(x, x', y);
    }
  }

  lemma XorLowInjective(g: u64, h: u64, b: u8)
    requires XorLow(g, b) == XorLow(h, b)
    ensures g == h
  {
    LowByteSplits(g / U8_LIMIT, XorByte(g % U8_LIMIT, b), h / U8_LIMIT, XorByte(h % U8_LIMIT, b));
    XorByteInjective(g % U8_LIMIT, h % U8_LIMIT, b);
  }

  lemma MixRegisterInjective(g: u64, h: u64, b: u8)
    requires Mix(g, b) == Mix(h, b)
    ensures g == h
  {
    MultiplyInjective(XorLow(g, b), XorLow(h, b));
    XorLowInjective(g, h, b);
  }

  lemma MixByteInjective(h: u64, a: u8, b: u8)
    requires Mix(h, a) == Mix(h, b)
    ensures a == b
  {
    MultiplyInjective(XorLow(h, a), XorLow(h, b));
    XorByteInjective(a, b, h % U8_LIMIT);
  }

  lemma MixIsInjective()
    ensures RegisterInjective(Mix) && ByteInjective(Mix)
  {
    forall g: u64, h: u64, b: u8 | Mix(g, b) == Mix(h, b)
      ensures g == h
    {
      MixRegisterInjective(g, h, b);
    }
    forall h: u64, a: u8, b: u8 | Mix(h, a) == Mix(h, b)
      ensures a == b
    {
      MixByteInjective(h, a, b);
    }
  }

  lemma LowByteSplits(high: nat, low: u8, high': nat, low': u8)
    requires U8_LIMIT * high + low == U8_LIMIT * high' + low'
    ensures high == high' && low == low'
  {
  }

  /** Two canonical streams that differ in exactly one byte have different digests. */
  lemma ChangedByteChangesDigest(seed: u64, data: seq<u8>, k: nat, b: u8)
    requires k < |data|
    ensures DigestOf(seed, data[k := b]) == DigestOf(seed, data) <==> b == data[k]
  {
    MixIsInjective();
    if b == data[k] {
      assert data[k := b] == data;
    } else {
      ChangedByteChangesFold(Mix, seed, data, k, b);
    }
  }

  // ----- one value -----

  /**
   The digest of the byte 0x25, which cancels the low byte of the offset basis: it is xored in first,
   and the prime multiplied after.
   */
  lemma DigestOfOneByte()
    ensures DigestOf(0xcbf29ce484222325, [0x25]) == (0xcbf29ce484222300 * 0x100000001b3) % U64_LIMIT
  {
    var h := OFFSET_BASIS;
    SameByteCancels(0x25);
    assert h / U8_LIMIT == 0xcbf29ce4842223 && h % U8_LIMIT == 0x25;
    hide XorByte;
    assert XorLow(h, 0x25) == 0xcbf29ce484222300;
    assert [0x25][..0] == [];
    assert DigestOf(h, [0x25]) == Mix(DigestOf(h, []), 0x25);
  }

  lemma SameByteCancels(b: u8)
    ensures XorByte(b, b) == 0
  {
    var bits := Binary(b, 8);
    assert Xor(bits, bits) == Zeros(8);
    NothingSet(8);
  }

  lemma {:induction false} NothingSet(n: nat)
    ensures Value(Zeros(n)) == 0
  {
    if n > 0 {
      NothingSet(n - 1);
      assert Zeros(n)[1..] == Zeros(n - 1);
    }
  }
}
