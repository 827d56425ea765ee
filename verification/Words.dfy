/** Machine words as bounded integers, and their little-endian byte strings. */
module Words {
  const U8_LIMIT := 0x100
  const U32_LIMIT := 0x1_0000_0000
  const U64_LIMIT := 0x1_0000_0000_0000_0000
  const I64_LIMIT := 0x8000_0000_0000_0000

  type u8 = x: int | 0 <= x < U8_LIMIT
  type u32 = x: int | 0 <= x < U32_LIMIT
  type u64 = x: int | 0 <= x < U64_LIMIT
  type i64 = x: int | -I64_LIMIT <= x < I64_LIMIT

  datatype Option<+T> = None | Some(value: T)

  /** uint64 addition: wraps modulo 2^64. */
  function WrapAdd(x: u64, y: u64): u64 {
    (x + y) % U64_LIMIT
  }

  /** The value a cast from int64 to uint64 keeps. */
  function SignedToWord(x: i64): u64 {
    if x < 0 then x + U64_LIMIT else x
  }

  function WordToSigned(x: u64): i64 {
    if x < I64_LIMIT then x else x - U64_LIMIT
  }

  function Power256(n: nat): (p: nat)
    ensures p > 0
  {
    if n == 0 then 1 else U8_LIMIT * Power256(n - 1)
  }

  /** The `n` low bytes of `v`, least significant first. */
  function LittleEndian(v: nat, n: nat): (bytes: seq<u8>)
    ensures |bytes| == n
  {
    if n == 0 then [] else [v % U8_LIMIT] + LittleEndian(v / U8_LIMIT, n - 1)
  }

  /** The number a little-endian byte string denotes. */
  function FromLittleEndian(bytes: seq<u8>): (v: nat)
    ensures v < Power256(|bytes|)
  {
    if |bytes| == 0 then 0 else bytes[0] + U8_LIMIT * FromLittleEndian(bytes[1..])
  }

  lemma {:induction false} DecodeAfterEncode(v: nat, n: nat)
    requires v < Power256(n)
    ensures FromLittleEndian(LittleEndian(v, n)) == v
  {
    if n > 0 {
      var bytes := LittleEndian(v, n);
      assert bytes[1..] == LittleEndian(v / U8_LIMIT, n - 1);
      DecodeAfterEncode(v / U8_LIMIT, n - 1);
    }
  }

  lemma {:induction false} EncodeAfterDecode(bytes: seq<u8>)
    ensures LittleEndian(FromLittleEndian(bytes), |bytes|) == bytes
  {
    if |bytes| > 0 {
      var rest := FromLittleEndian(bytes[1..]);
      assert (bytes[0] + U8_LIMIT * rest) / U8_LIMIT == rest;
      EncodeAfterDecode(bytes[1..]);
      assert bytes == [bytes[0]] + bytes[1..];
    }
  }

  /** Byte `i` of the encoding is the value shifted right by 8*i bits and masked. */
  lemma {:induction false} EncodedByte(v: nat, n: nat, i: nat)
    requires i < n
    ensures LittleEndian(v, n)[i] == v / Power256(i) % U8_LIMIT
  {
    if i > 0 {
      EncodedByte(v / U8_LIMIT, n - 1, i - 1);
      DivideTwice(v, U8_LIMIT, Power256(i - 1));
    }
  }

  lemma DivideTwice(v: nat, a: nat, b: nat)
    requires a > 0 && b > 0
    ensures a * b > 0
    ensures v / a / b == v / (a * b)
  {
    var q := v / a;
    var q2, r := q / b, a * (q % b) + v % a;
    Distribute(a, b, q2, q % b);
    Distribute(a, 1, b - 1, -(q % b));
    MultipleBound(a, b - 1 - q % b);
    QuotientIsUnique(v, a * b, q2, r);
  }

  lemma Distribute(a: int, b: int, x: int, y: int)
    ensures a * (b * x + y) == (a * b) * x + a * y
  {
  }

  lemma MultipleBound(d: int, e: int)
    requires d > 0
    ensures e >= 0 ==> d * e >= 0
    ensures e >= 1 ==> d * e >= d
    ensures e <= -1 ==> d * e <= -d
  {
  }

  lemma QuotientIsUnique(v: int, d: int, q: int, r: int)
    requires d > 0 && 0 <= r < d && v == d * q + r
    ensures v / d == q
  {
    MultipleBound(d, v / d - q);
    Distribute(d, 1, v / d, -q);
  }

  lemma PowersOf256()
    ensures Power256(1) == U8_LIMIT
    ensures Power256(4) == U32_LIMIT
    ensures Power256(8) == U64_LIMIT
  {
    assert Power256(2) == 0x1_0000;
    assert Power256(4) == U8_LIMIT * (U8_LIMIT * Power256(2));
    assert Power256(6) == U8_LIMIT * (U8_LIMIT * Power256(4));
    assert Power256(8) == U8_LIMIT * (U8_LIMIT * Power256(6));
  }
}
