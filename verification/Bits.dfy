/** Unsigned words as bits, lowest first, and bitwise exclusive or. */
module Bits {
  import opened Words

  type Bits = seq<bool>

  function Digit(bit: bool): nat {
    if bit then 1 else 0
  }

  function Power2(n: nat): (p: nat)
    ensures p > 0
  {
    if n == 0 then 1 else 2 * Power2(n - 1)
  }

  /** The `n` low bits of `v`. */
  function Binary(v: nat, n: nat): (bits: Bits)
    ensures |bits| == n
  {
    if n == 0 then [] else [v % 2 == 1] + Binary(v / 2, n - 1)
  }

  /** The number a bit string denotes. */
  function Value(bits: Bits): (v: nat)
    ensures v < Power2(|bits|)
  {
    if |bits| == 0 then 0 else Digit(bits[0]) + 2 * Value(bits[1..])
  }

  lemma {:induction false} ValueOfBinary(v: nat, n: nat)
    requires v < Power2(n)
    ensures Value(Binary(v, n)) == v
  {
    if n > 0 {
      assert Binary(v, n)[1..] == Binary(v / 2, n - 1);
      ValueOfBinary(v / 2, n - 1);
    }
  }

  lemma {:induction false} BinaryOfValue(bits: Bits)
    ensures Binary(Value(bits), |bits|) == bits
  {
    if |bits| > 0 {
      BinaryOfValue(bits[1..]);
      assert bits == [bits[0]] + bits[1..];
    }
  }

  lemma {:induction false} ValueOfConcatenation(low: Bits, high: Bits)
    ensures Value(low + high) == Value(low) + Power2(|low|) * Value(high)
  {
    if |low| == 0 {
      assert low + high == high;
    } else {
      assert (low + high)[1..] == low[1..] + high;
      ValueOfConcatenation(low[1..], high);
      Distribute(2, Power2(|low| - 1), Value(high), Value(low[1..]));
    }
  }

  lemma Power2Values()
    ensures Power2(8) == U8_LIMIT && Power2(32) == U32_LIMIT
  {
    assert Power2(4) == 16;
    DoublePower(4, 4);
    DoublePower(8, 8);
    DoublePower(16, 16);
  }

  lemma {:induction false} DoublePower(m: nat, n: nat)
    ensures Power2(m + n) == Power2(m) * Power2(n)
  {
    if n > 0 {
      DoublePower(m, n - 1);
    }
  }

  function Zeros(n: nat): (bits: Bits)
    ensures |bits| == n && forall i :: 0 <= i < n ==> !bits[i]
  {
    seq(n, _ => false)
  }

  function Xor(a: Bits, b: Bits): (c: Bits)
    requires |a| == |b|
    ensures |c| == |a| && forall i :: 0 <= i < |a| ==> c[i] == (a[i] != b[i])
  {
    seq(|a|, i requires 0 <= i < |a| => a[i] != b[i])
  }

  lemma XorCancels(a: Bits, b: Bits, c: Bits)
    requires |a| == |b| == |c|
    requires Xor(a, c) == Xor(b, c) || Xor(c, a) == Xor(c, b)
    ensures a == b
  {
    assert Xor(c, a) == Xor(a, c) && Xor(c, b) == Xor(b, c);
    forall i | 0 <= i < |a|
      ensures a[i] == b[i]
    {
      assert Xor(a, c)[i] == Xor(b, c)[i];
    }
  }

  lemma XorAssociates(a: Bits, b: Bits, c: Bits)
    requires |a| == |b| == |c|
    ensures Xor(Xor(a, b), c) == Xor(a, Xor(b, c))
  {
  }

  /** A byte as the low eight bits of an `n`-bit word. */
  function Widen(b: u8, n: nat): (bits: Bits)
    requires n >= 8
    ensures |bits| == n
  {
    Binary(b, 8) + Zeros(n - 8)
  }

  lemma WidenInjective(a: u8, b: u8, n: nat)
    requires n >= 8 && Widen(a, n) == Widen(b, n)
    ensures a == b
  {
    assert Binary(a, 8) == Widen(a, n)[..8] == Widen(b, n)[..8] == Binary(b, 8);
    Power2Values();
    ValueOfBinary(a, 8);
    ValueOfBinary(b, 8);
  }
}
