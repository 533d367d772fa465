// Machine words as bit strings, most significant bit first, and the number each stands for.
module Words {
  import opened Bytes

  type Bits = seq<bool>

  function Xor(a: Bits, b: Bits): (x: Bits)
    requires |a| == |b|
    ensures |x| == |a|
  {
    seq(|a|, i requires 0 <= i < |a| => a[i] != b[i])
  }

  function Not(a: Bits): (x: Bits)
    ensures |x| == |a|
  {
    seq(|a|, i requires 0 <= i < |a| => !a[i])
  }

  function Zeros(n: nat): (z: Bits)
    ensures |z| == n
  {
    seq(n, _ => false)
  }

  function Pow2(n: nat): (p: nat)
    ensures p > 0
  {
    if n == 0 then 1 else 2 * Pow2(n - 1)
  }

  /** The unsigned number a word holds. */
  function Value(a: Bits): (v: nat)
    ensures v < Pow2(|a|)
  {
    if a == [] then 0 else 2 * Value(a[..|a| - 1]) + if a[|a| - 1] then 1 else 0
  }

  function ByteBits(b: byte): (bits: Bits)
    ensures |bits| == 8
  {
    [b >= 128, b % 128 >= 64, b % 64 >= 32, b % 32 >= 16, b % 16 >= 8, b % 8 >= 4, b % 4 >= 2, b % 2 >= 1]
  }

  lemma {:induction false} ValueInjective(a: Bits, b: Bits)
    requires |a| == |b| && Value(a) == Value(b)
    ensures a == b
  {
    if a != [] {
      var n := |a| - 1;
      ValueInjective(a[..n], b[..n]);
      assert a == a[..n] + [a[n]] && b == b[..n] + [b[n]];
    }
  }

  /** One more bit of a word. */
  lemma PrefixValue(bits: Bits, k: nat, v: nat)
    requires k < |bits| && Value(bits[..k]) == v
    ensures Value(bits[..k + 1]) == 2 * v + if bits[k] then 1 else 0
  {
    assert bits[..k + 1][..k] == bits[..k];
  }

  lemma HighHalf(b: byte)
    ensures Value(ByteBits(b)[..4]) == b / 16
  {
    var bits := ByteBits(b);
    PrefixValue(bits, 0, 0);
    PrefixValue(bits, 1, b / 128);
    PrefixValue(bits, 2, b / 64);
    PrefixValue(bits, 3, b / 32);
  }

  lemma ValueOfByte(b: byte)
    ensures Value(ByteBits(b)) == b
  {
    var bits := ByteBits(b);
    HighHalf(b);
    PrefixValue(bits, 4, b / 16);
    PrefixValue(bits, 5, b / 8);
    PrefixValue(bits, 6, b / 4);
    PrefixValue(bits, 7, b / 2);
    assert bits[..8] == bits;
  }

  /** The byte with these bits. */
  function ByteOf(bits: Bits): (b: byte)
    requires |bits| == 8
    ensures ByteBits(b) == bits
  {
    assert Pow2(4) == 16 && Pow2(8) == 256;
    ValueOfByte(Value(bits));
    ValueInjective(ByteBits(Value(bits)), bits);
    Value(bits)
  }

  lemma ValueSnoc(a: Bits, bit: bool)
    ensures Value(a + [bit]) == 2 * Value(a) + if bit then 1 else 0
  {
    assert (a + [bit])[..|a|] == a;
  }

  lemma Double(v: nat, p: nat)
    ensures v * (2 * p) == 2 * (v * p)
  {
  }

  lemma {:induction false} ValueConcat(a: Bits, b: Bits)
    ensures Value(a + b) == Value(a) * Pow2(|b|) + Value(b)
  {
    if b == [] {
      assert a + b == a;
    } else {
      var n := |b| - 1;
      ValueConcat(a, b[..n]);
      ValueSnoc(a + b[..n], b[n]);
      ValueSnoc(b[..n], b[n]);
      assert a + b == a + b[..n] + [b[n]] && b == b[..n] + [b[n]];
      Double(Value(a), Pow2(n));
    }
  }

  lemma ValueOfTwoBytes(high: byte, low: byte)
    ensures Value(ByteBits(high) + ByteBits(low)) == 256 * high + low
  {
    ValueOfByte(high);
    ValueOfByte(low);
    ValueConcat(ByteBits(high), ByteBits(low));
    assert Pow2(8) == 256;
  }

  lemma ByteBitsInjective(a: byte, b: byte)
    requires ByteBits(a) == ByteBits(b)
    ensures a == b
  {
    ValueOfByte(a);
    ValueOfByte(b);
  }

  lemma SixteenBitValue(a: Bits)
    requires |a| == 16
    ensures Value(a) < 0x1_0000
  {
    assert Pow2(4) == 16;
    assert Pow2(8) == 256;
    assert Pow2(12) == 0x1000;
    assert Pow2(16) == 0x1_0000;
  }

  lemma ThirtyTwoBitValue(a: Bits)
    requires |a| == 32
    ensures Value(a) < 0x1_0000_0000
  {
    assert Pow2(8) == 256;
    assert Pow2(16) == 0x1_0000;
    assert Pow2(24) == 0x100_0000;
    assert Pow2(32) == 0x1_0000_0000;
  }

  lemma {:induction false} XorZeros(a: Bits)
    ensures Xor(a, Zeros(|a|)) == a && Xor(a, a) == Zeros(|a|)
  {
  }

  lemma XorConcat(a: Bits, b: Bits, c: Bits, d: Bits)
    requires |a| == |c| && |b| == |d|
    ensures Xor(a + b, c + d) == Xor(a, c) + Xor(b, d)
  {
  }
}
