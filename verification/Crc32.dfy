// The CRC-32 both bulk transfers gate on (section 8 of RFC 1952): complemented
// on entry and exit, so that it can be carried from chunk to chunk.
module Crc32 {
  import opened Bytes
  import opened Words
  import Division

  type Word = w: Bits | |w| == 32 witness ByteBits(0) + ByteBits(0) + ByteBits(0) + ByteBits(0)

  const POLYNOMIAL: Word := ByteBits(0xED) + ByteBits(0xB8) + ByteBits(0x83) + ByteBits(0x20)
  const ZERO: Word := ByteBits(0) + ByteBits(0) + ByteBits(0) + ByteBits(0)

  function Step(crc: Word): Word {
    var half := [false] + crc[..31];
    if crc[31] then Xor(half, POLYNOMIAL) else half
  }

  function Steps(n: nat, crc: Word): Word {
    if n == 0 then crc else Step(Steps(n - 1, crc))
  }

  function Mix(crc: Word, data: seq<byte>): Word
    decreases data
  {
    if data == [] then crc else Mix(Steps(8, Xor(crc, Zeros(24) + ByteBits(data[0]))), data[1..])
  }

  function Update(crc: Word, data: seq<byte>): Word {
    Not(Mix(Not(crc), data))
  }

  /** The checksum of a whole blob, as the number that travels in an END frame. */
  function Checksum(data: seq<byte>): u32 {
    Number(Update(ZERO, data))
  }

  function Number(crc: Word): u32 {
    ThirtyTwoBitValue(crc);
    Value(crc)
  }

  /** Chunk by chunk, as the download task does it. */
  function UpdateEach(crc: Word, chunks: seq<seq<byte>>): Word
    decreases chunks
  {
    if chunks == [] then crc else UpdateEach(Update(crc, chunks[0]), chunks[1..])
  }

  /** library_crc32_update and radar_crc32_update, which are the same loop. */
  method ComputeUpdate(crc: Word, data: seq<byte>) returns (updated: Word)
    ensures updated == Update(crc, data)
  {
    var register: Word := Not(crc);
    assert data[0..] == data;
    for index := 0 to |data|
      invariant Mix(Not(crc), data) == Mix(register, data[index..])
    {
      assert data[index..][1..] == data[index + 1..];
      register := Xor(register, Zeros(24) + ByteBits(data[index]));
      ghost var mixed := register;
      for bit := 0 to 8
        invariant register == Steps(bit, mixed)
      {
        var half: Word := [false] + register[..31];
        register := if register[31] then Xor(half, POLYNOMIAL) else half;
      }
    }
    updated := Not(register);
  }

  method ComputeChecksum(data: seq<byte>) returns (crc: u32)
    ensures crc == Checksum(data)
  {
    var word := ComputeUpdate(ZERO, data);
    crc := Number(word);
  }

  lemma {:induction false} MixConcat(crc: Word, a: seq<byte>, b: seq<byte>)
    ensures Mix(crc, a + b) == Mix(Mix(crc, a), b)
    decreases a
  {
    if a == [] {
      assert a + b == b;
    } else {
      assert (a + b)[1..] == a[1..] + b;
      MixConcat(Steps(8, Xor(crc, Zeros(24) + ByteBits(a[0]))), a[1..], b);
    }
  }

  /** The checksum may be interrupted anywhere. */
  lemma {:induction false} UpdateConcat(crc: Word, a: seq<byte>, b: seq<byte>)
    ensures Update(Update(crc, a), b) == Update(crc, a + b)
  {
    MixConcat(Not(crc), a, b);
    assert Not(Not(Mix(Not(crc), a))) == Mix(Not(crc), a);
  }

  lemma UpdateNothing(crc: Word)
    ensures Update(crc, []) == crc
  {
    assert Not(Not(crc)) == crc;
  }

  /** However a blob was cut, the carried checksum is that of the whole. */
  lemma {:induction false} UpdateEachIsWhole(crc: Word, chunks: seq<seq<byte>>)
    ensures UpdateEach(crc, chunks) == Update(crc, Concat(chunks))
    decreases chunks
  {
    if chunks == [] {
      UpdateNothing(crc);
    } else {
      UpdateEachIsWhole(Update(crc, chunks[0]), chunks[1..]);
      UpdateConcat(crc, chunks[0], Concat(chunks[1..]));
    }
  }

  // ------------------------------------------- what the register loop computes

  /** The register seen from its other end: the loop shifts towards the least significant
      bit, so the leading coefficient of the remainder is the last bit of the word. */
  function Reverse(a: Bits): (r: Bits)
    ensures |r| == |a|
  {
    seq(|a|, i requires 0 <= i < |a| => a[|a| - 1 - i])
  }

  /** The message in the order it is divided: of each byte the least significant bit first. */
  function BitsOf(data: seq<byte>): (bits: Bits)
    ensures |bits| == 8 * |data|
  {
    if data == [] then [] else Reverse(ByteBits(data[0])) + BitsOf(data[1..])
  }

  /** The constant of the code, read from its other end. */
  const GENERATOR: Division.Generator := Reverse(POLYNOMIAL)

  /** The exponents below 32 of the generator. */
  predicate Exponent(k: int) {
    k in {26, 23, 22, 16, 12, 11, 10, 8, 7, 5, 4, 2, 1, 0}
  }

  lemma GeneratorTerms(k: nat)
    requires k < 32
    ensures |GENERATOR| == 32 && (GENERATOR[31 - k] <==> Exponent(k))
  {
  }

  lemma SixteenBits()
    ensures Pow2(16) == 0x1_0000
  {
    assert Pow2(4) == 16 && Pow2(8) == 256;
    assert Pow2(12) == 4096;
  }

  lemma ValueOfHalves(word: Bits, high: Bits, low: Bits, width: nat)
    requires |low| == width && word == high + low
    ensures Value(word) == Value(high) * Pow2(width) + Value(low)
  {
    ValueConcat(high, low);
  }

  lemma CodeConstants()
    ensures Value(POLYNOMIAL) == 0xEDB88320
  {
    var high, low := ByteBits(0xED) + ByteBits(0xB8), ByteBits(0x83) + ByteBits(0x20);
    ValueOfTwoBytes(0xED, 0xB8);
    ValueOfTwoBytes(0x83, 0x20);
    HalvesOf(ByteBits(0xED), ByteBits(0xB8), ByteBits(0x83), ByteBits(0x20));
    ValueOfHalves(POLYNOMIAL, high, low, 16);
    SixteenBits();
  }

  lemma HalvesOf(a: Bits, b: Bits, c: Bits, d: Bits)
    ensures a + b + c + d == (a + b) + (c + d)
  {
  }

  lemma ReverseXor(a: Bits, b: Bits)
    requires |a| == |b|
    ensures Reverse(Xor(a, b)) == Xor(Reverse(a), Reverse(b))
  {
  }

  lemma ReverseConcat(a: Bits, b: Bits)
    ensures Reverse(a + b) == Reverse(b) + Reverse(a)
  {
  }

  lemma ReverseTwice(a: Bits)
    ensures Reverse(Reverse(a)) == a && Reverse(Not(a)) == Not(Reverse(a))
  {
  }

  lemma ShiftMirrored(crc: Word)
    ensures Reverse([false] + crc[..31]) == Division.Shift(Reverse(crc))
  {
  }

  lemma TurnMirrored(crc: Word, polynomial: Word, g: Division.Generator)
    requires g == Reverse(polynomial)
    ensures var half := [false] + crc[..31];
            Reverse(if crc[31] then Xor(half, polynomial) else half) == Division.Step(g, Reverse(crc))
  {
    ShiftMirrored(crc);
    ReverseXor([false] + crc[..31], polynomial);
  }

  lemma StepMirrored(crc: Word)
    ensures Reverse(Step(crc)) == Division.Step(GENERATOR, Reverse(crc))
  {
    TurnMirrored(crc, POLYNOMIAL, GENERATOR);
  }

  lemma {:induction false} StepsMirrored(n: nat, crc: Word)
    ensures Reverse(Steps(n, crc)) == Division.Steps(GENERATOR, n, Reverse(crc))
  {
    if n > 0 {
      StepsMirrored(n - 1, crc);
      StepMirrored(Steps(n - 1, crc));
    }
  }

  lemma ByteMirrored(crc: Word, b: byte)
    ensures Reverse(Steps(8, Xor(crc, Zeros(24) + ByteBits(b))))
         == Division.FeedAll(GENERATOR, Reverse(crc), Reverse(ByteBits(b)))
  {
    var word := Zeros(24) + ByteBits(b);
    StepsMirrored(8, Xor(crc, word));
    ReverseXor(crc, word);
    ReverseConcat(Zeros(24), ByteBits(b));
    assert Reverse(Zeros(24)) == Zeros(24);
    Division.StepsFeedFront(GENERATOR, Reverse(crc), Reverse(ByteBits(b)));
  }

  lemma {:induction false} MixFeeds(crc: Word, data: seq<byte>)
    ensures Reverse(Mix(crc, data)) == Division.FeedAll(GENERATOR, Reverse(crc), BitsOf(data))
    decreases data
  {
    if data != [] {
      ByteMirrored(crc, data[0]);
      MixFeeds(Steps(8, Xor(crc, Zeros(24) + ByteBits(data[0]))), data[1..]);
      Division.FeedConcat(GENERATOR, Reverse(crc), Reverse(ByteBits(data[0])), BitsOf(data[1..]));
    }
  }

  /** The remainder of (message, first 32 bits complemented, times x^32) by the generator. */
  function Residue(data: seq<byte>): Word {
    Division.Remainder(GENERATOR, Xor(Not(Zeros(32)) + Zeros(8 * |data|), BitsOf(data) + Zeros(32)))
  }

  lemma MixIsResidue(data: seq<byte>)
    ensures Reverse(Mix(Not(ZERO), data)) == Residue(data)
  {
    MixFeeds(Not(ZERO), data);
    assert Reverse(Not(ZERO)) == Not(Zeros(32));
    Division.FeedIsDivision(GENERATOR, Not(Zeros(32)), BitsOf(data));
  }

  /** The checksum is that remainder, complemented, its leading coefficient in the least
      significant bit: the CRC-32 of RFC 1952. */
  lemma ChecksumIsRemainder(data: seq<byte>)
    ensures Checksum(data) == Value(Not(Reverse(Residue(data))))
  {
    MixIsResidue(data);
    ReverseTwice(Mix(Not(ZERO), data));
  }

  // ------------------------------------------------------- what it detects

  lemma {:induction false} BitsOfInjective(a: seq<byte>, b: seq<byte>)
    requires |a| == |b| && BitsOf(a) == BitsOf(b)
    ensures a == b
  {
    if a != [] {
      assert BitsOf(a)[..8] == Reverse(ByteBits(a[0])) && BitsOf(a)[8..] == BitsOf(a[1..]);
      assert BitsOf(b)[..8] == Reverse(ByteBits(b[0])) && BitsOf(b)[8..] == BitsOf(b[1..]);
      ReverseTwice(ByteBits(a[0]));
      ReverseTwice(ByteBits(b[0]));
      ByteBitsInjective(a[0], b[0]);
      BitsOfInjective(a[1..], b[1..]);
      assert a == [a[0]] + a[1..] && b == [b[0]] + b[1..];
    }
  }

  lemma NotInjective(a: Bits, b: Bits)
    requires |a| == |b| && Not(a) == Not(b)
    ensures a == b
  {
    assert forall i :: 0 <= i < |a| ==> Not(a)[i] == !a[i] && Not(b)[i] == !b[i];
  }

  lemma EqualChecksums(a: seq<byte>, b: seq<byte>)
    requires Checksum(a) == Checksum(b)
    ensures var r := Not(Zeros(32));
            Division.FeedAll(GENERATOR, r, BitsOf(a)) == Division.FeedAll(GENERATOR, r, BitsOf(b))
  {
    ValueInjective(Update(ZERO, a), Update(ZERO, b));
    NotInjective(Mix(Not(ZERO), a), Mix(Not(ZERO), b));
    MixFeeds(Not(ZERO), a);
    MixFeeds(Not(ZERO), b);
    assert Reverse(Not(ZERO)) == Not(Zeros(32));
  }

  /** Two blobs of equal length that differ only within 32 consecutive bits never share a
      checksum. */
  lemma BurstDetected(a: seq<byte>, b: seq<byte>, start: nat)
    requires |a| == |b| && a != b
    requires forall i :: 0 <= i < 8 * |a| && !(start <= i < start + 32) ==> BitsOf(a)[i] == BitsOf(b)[i]
    ensures Checksum(a) != Checksum(b)
  {
    if Checksum(a) == Checksum(b) {
      EqualChecksums(a, b);
      Division.BurstSeen(GENERATOR, Not(Zeros(32)), BitsOf(a), BitsOf(b), start);
      BitsOfInjective(a, b);
    }
  }

  lemma {:induction false} BitsOfByte(data: seq<byte>, k: nat)
    requires k < |data|
    ensures BitsOf(data)[8 * k..8 * k + 8] == Reverse(ByteBits(data[k]))
  {
    if k > 0 {
      BitsOfByte(data[1..], k - 1);
      assert BitsOf(data)[8..] == BitsOf(data[1..]);
      assert BitsOf(data)[8 * k..8 * k + 8] == BitsOf(data[1..])[8 * (k - 1)..8 * (k - 1) + 8];
    }
  }

  lemma SameBit(a: seq<byte>, b: seq<byte>, k: nat, i: nat)
    requires k < |a| == |b| && a[k] == b[k] && 8 * k <= i < 8 * k + 8
    ensures BitsOf(a)[i] == BitsOf(b)[i]
  {
    BitsOfByte(a, k);
    BitsOfByte(b, k);
    assert BitsOf(a)[i] == BitsOf(a)[8 * k..8 * k + 8][i - 8 * k];
    assert BitsOf(b)[i] == BitsOf(b)[8 * k..8 * k + 8][i - 8 * k];
  }

  /** So no wrong bytes within four that follow each other go unnoticed. */
  lemma WrongBytesDetected(a: seq<byte>, b: seq<byte>, k: nat)
    requires |a| == |b| && a != b && forall i :: 0 <= i < |a| && !(k <= i < k + 4) ==> a[i] == b[i]
    ensures Checksum(a) != Checksum(b)
  {
    forall i | 0 <= i < 8 * |a| && !(8 * k <= i < 8 * k + 32) ensures BitsOf(a)[i] == BitsOf(b)[i] {
      SameBit(a, b, i / 8, i);
    }
    BurstDetected(a, b, 8 * k);
  }
}
