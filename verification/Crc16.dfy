// The frame checksum: the register loop of the source, its meaning as polynomial
// division, and what it is for: the transmission errors it never lets through.
module Crc16 {
  import opened Bytes
  import opened Division
  import opened Words

  type Register = r: Bits | |r| == 16 witness ByteBits(0) + ByteBits(0)

  // ------------------------------------------------------------ the code

  /** The coefficients of x^12 + x^5 + 1 in the word 0x1021. */
  predicate Tap(i: int) {
    i == 3 || i == 10 || i == 15
  }

  const POLYNOMIAL: Generator := ByteBits(0x10) + ByteBits(0x21)
  const INITIAL: Register := ByteBits(0xFF) + ByteBits(0xFF)

  function Update(crc: Register, b: byte): Register {
    Steps(POLYNOMIAL, 8, Xor(crc, ByteBits(b) + Zeros(8)))
  }

  function CrcFrom(crc: Register, data: seq<byte>): Register
    decreases data
  {
    if data == [] then crc else CrcFrom(Update(crc, data[0]), data[1..])
  }

  function Checksum(data: seq<byte>): u16 {
    SixteenBitValue(CrcFrom(INITIAL, data));
    Value(CrcFrom(INITIAL, data))
  }

  /** crc16_ */
  method ComputeChecksum(data: array<byte>, length: nat) returns (crc: u16)
    requires length <= data.Length
    ensures crc == Checksum(data[..length])
  {
    var register: Register := INITIAL;
    ghost var all := data[..length];
    assert all[0..] == all;
    for i := 0 to length
      invariant CrcFrom(INITIAL, all) == CrcFrom(register, all[i..])
    {
      assert all[i..][1..] == all[i + 1..] && all[i..][0] == data[i];
      ghost var before := register;
      register := Xor(register, ByteBits(data[i]) + Zeros(8));
      ghost var mixed := register;
      for bit := 0 to 8
        invariant register == Steps(POLYNOMIAL, bit, mixed)
      {
        register := if register[0] then Xor(Shift(register), POLYNOMIAL) else Shift(register);
      }
      assert register == Update(before, data[i]);
    }
    SixteenBitValue(register);
    return Value(register);
  }

  lemma CodeConstants()
    ensures Value(POLYNOMIAL) == 0x1021 && Value(INITIAL) == 0xFFFF
    ensures |POLYNOMIAL| == 16 && forall i :: 0 <= i < 16 ==> (POLYNOMIAL[i] <==> Tap(i))
  {
    ValueOfTwoBytes(0x10, 0x21);
    ValueOfTwoBytes(0xFF, 0xFF);
  }

  // ------------------------------------------------- the register divides

  function MessageBits(data: seq<byte>): (bits: Bits)
    ensures |bits| == 8 * |data|
  {
    if data == [] then [] else ByteBits(data[0]) + MessageBits(data[1..])
  }

  lemma UpdateFeeds(crc: Register, b: byte)
    ensures Update(crc, b) == FeedAll(POLYNOMIAL, crc, ByteBits(b))
  {
    StepsFeedFront(POLYNOMIAL, crc, ByteBits(b));
  }

  lemma {:induction false} CrcFeeds(crc: Register, data: seq<byte>)
    ensures CrcFrom(crc, data) == FeedAll(POLYNOMIAL, crc, MessageBits(data))
    decreases data
  {
    if data != [] {
      UpdateFeeds(crc, data[0]);
      CrcFeeds(Update(crc, data[0]), data[1..]);
      FeedConcat(POLYNOMIAL, crc, ByteBits(data[0]), MessageBits(data[1..]));
    }
  }

  /** The checksum of a message is the remainder of (message, first 16 bits
      complemented, times x^16) by x^16 + x^12 + x^5 + 1. */
  lemma ChecksumIsRemainder(data: seq<byte>)
    ensures Checksum(data)
         == Value(Remainder(POLYNOMIAL, Xor(INITIAL + Zeros(8 * |data|), MessageBits(data) + Zeros(16))))
  {
    CrcFeeds(INITIAL, data);
    FeedIsDivision(POLYNOMIAL, INITIAL, MessageBits(data));
  }

  // ------------------------------------------------------- no state is lost

  /** For each byte the update is a bijection on the registers, with this inverse. */
  lemma UpdateIsBijection(crc: Register, after: Register, b: byte)
    ensures Update(crc, b) == after <==> crc == UnfeedAll(POLYNOMIAL, after, ByteBits(b))
  {
    UpdateFeeds(crc, b);
    UnfeedAllUndoes(POLYNOMIAL, crc, after, ByteBits(b));
  }

  // ---------------------------------------------------- errors it detects

  lemma {:induction false} MessageBitsInjective(a: seq<byte>, b: seq<byte>)
    requires |a| == |b| && MessageBits(a) == MessageBits(b)
    ensures a == b
  {
    if a != [] {
      assert MessageBits(a)[..8] == ByteBits(a[0]) && MessageBits(a)[8..] == MessageBits(a[1..]);
      assert MessageBits(b)[..8] == ByteBits(b[0]) && MessageBits(b)[8..] == MessageBits(b[1..]);
      ByteBitsInjective(a[0], b[0]);
      MessageBitsInjective(a[1..], b[1..]);
      assert a == [a[0]] + a[1..] && b == [b[0]] + b[1..];
    }
  }

  lemma EqualChecksums(a: seq<byte>, b: seq<byte>)
    requires Checksum(a) == Checksum(b)
    ensures FeedAll(POLYNOMIAL, INITIAL, MessageBits(a)) == FeedAll(POLYNOMIAL, INITIAL, MessageBits(b))
  {
    ValueInjective(CrcFrom(INITIAL, a), CrcFrom(INITIAL, b));
    CrcFeeds(INITIAL, a);
    CrcFeeds(INITIAL, b);
  }

  /** Any corruption confined to sixteen consecutive bits, aligned or not, changes the checksum. */
  lemma BurstDetected(a: seq<byte>, b: seq<byte>, start: nat)
    requires |a| == |b| && a != b
    requires forall i :: 0 <= i < 8 * |a| && !(start <= i < start + 16) ==>
               MessageBits(a)[i] == MessageBits(b)[i]
    ensures Checksum(a) != Checksum(b)
  {
    if Checksum(a) == Checksum(b) {
      EqualChecksums(a, b);
      BurstSeen(POLYNOMIAL, INITIAL, MessageBits(a), MessageBits(b), start);
      MessageBitsInjective(a, b);
    }
  }

  lemma PolynomialIsOdd()
    ensures Odd(POLYNOMIAL)
  {
    assert POLYNOMIAL == Zeros(3) + [true] + (Zeros(6) + [true] + (Zeros(4) + [true]));
    OddConcat(Zeros(3), [true]);
    OddConcat(Zeros(3) + [true], Zeros(6) + [true] + (Zeros(4) + [true]));
    OddConcat(Zeros(6), [true]);
    OddConcat(Zeros(6) + [true], Zeros(4) + [true]);
    OddConcat(Zeros(4), [true]);
    OddZeros(3);
    OddZeros(6);
    OddZeros(4);
  }

  /** Any corruption of an odd number of bits, wherever they are, changes the checksum. */
  lemma OddErrorDetected(a: seq<byte>, b: seq<byte>)
    requires |a| == |b| && Odd(Xor(MessageBits(a), MessageBits(b)))
    ensures Checksum(a) != Checksum(b)
  {
    if Checksum(a) == Checksum(b) {
      EqualChecksums(a, b);
      PolynomialIsOdd();
      FeedAllParity(POLYNOMIAL, INITIAL, MessageBits(a));
      FeedAllParity(POLYNOMIAL, INITIAL, MessageBits(b));
      OddXor(MessageBits(a), MessageBits(b));
    }
  }

  // ---------------------------------------- errors in the checksum field as well

  /** What these errors of a message leave in the register. */
  function Left(errors: Bits): Register {
    FeedAll(POLYNOMIAL, Zeros(16), errors)
  }

  function Word(crc: u16): Register {
    ByteBits(crc / 256) + ByteBits(crc % 256)
  }

  lemma WordValue(r: Register, crc: u16)
    ensures Value(r) == crc <==> r == Word(crc)
  {
    ValueOfTwoBytes(crc / 256, crc % 256);
    if Value(r) == crc {
      ValueInjective(r, Word(crc));
    }
  }

  lemma XorMoves(a: Bits, b: Bits, e: Bits)
    requires |a| == |b| == |e|
    ensures Xor(a, b) == e <==> a == Xor(b, e)
  {
    if a == Xor(b, e) {
      assert forall i :: 0 <= i < |a| ==> Xor(a, b)[i] == e[i];
    }
    if Xor(a, b) == e {
      assert forall i :: 0 <= i < |a| ==> Xor(a, b)[i] == (a[i] != b[i]);
    }
  }

  /** The error of the register is what the error of the message leaves. */
  lemma ErrorOfRegister(a: seq<byte>, b: seq<byte>)
    requires |a| == |b|
    ensures CrcFrom(INITIAL, a)
         == Xor(CrcFrom(INITIAL, b), Left(Xor(MessageBits(a), MessageBits(b))))
  {
    CrcFeeds(INITIAL, a);
    CrcFeeds(INITIAL, b);
    FeedAllXor(POLYNOMIAL, INITIAL, INITIAL, MessageBits(a), MessageBits(b));
    XorZeros(INITIAL);
    XorMoves(CrcFrom(INITIAL, a), CrcFrom(INITIAL, b), Left(Xor(MessageBits(a), MessageBits(b))));
  }

  /** A wrong message `a` under a wrong checksum `crc`, instead of `b` under its own, passes
      exactly if the error of the checksum is what the error of the message leaves. */
  lemma PassesIff(a: seq<byte>, b: seq<byte>, crc: u16)
    requires |a| == |b|
    ensures Checksum(a) == crc
       <==> Word(crc) == Xor(Word(Checksum(b)), Left(Xor(MessageBits(a), MessageBits(b))))
  {
    ErrorOfRegister(a, b);
    WordValue(CrcFrom(INITIAL, a), crc);
    WordValue(CrcFrom(INITIAL, b), Checksum(b));
  }

  /** The byte with the bits of `mask` flipped. */
  function Flip(b: byte, mask: byte): byte {
    ByteOf(Xor(ByteBits(b), ByteBits(mask)))
  }

  lemma FlipBits(b: byte, mask: byte)
    ensures ByteBits(Flip(b, mask)) == Xor(ByteBits(b), ByteBits(mask))
    ensures Xor(ByteBits(Flip(b, mask)), ByteBits(b)) == ByteBits(mask)
    ensures mask > 0 ==> Flip(b, mask) != b
  {
    XorMoves(ByteBits(Flip(b, mask)), ByteBits(b), ByteBits(mask));
    if Flip(b, mask) == b {
      XorZeros(ByteBits(b));
      assert ByteBits(0) == Zeros(8);
      ByteBitsInjective(mask, 0);
    }
  }

  lemma {:induction false} MessageBitsConcat(a: seq<byte>, b: seq<byte>)
    ensures MessageBits(a + b) == MessageBits(a) + MessageBits(b)
    decreases a
  {
    if a == [] {
      assert a + b == b;
    } else {
      assert (a + b)[1..] == a[1..] + b;
      MessageBitsConcat(a[1..], b);
    }
  }

  /** The register with just these bits set. */
  function Only(s: set<int>): Register {
    seq(16, i requires 0 <= i < 16 => i in s)
  }

  lemma FeedsTo(s: set<int>, bit: bool, t: set<int>)
    requires forall i :: 0 <= i < 16 ==> (i in t <==> (i < 15 && i + 1 in s) != (((0 in s) != bit) && Tap(i)))
    ensures Feed(POLYNOMIAL, Only(s), bit) == Only(t)
  {
    assert forall i :: 0 <= i < 16 ==> Feed(POLYNOMIAL, Only(s), bit)[i] == Only(t)[i];
  }

  lemma FeedTwo(r: Register, a: bool, b: bool, rest: Bits, t: Register, u: Register)
    requires Feed(POLYNOMIAL, r, a) == t && Feed(POLYNOMIAL, t, b) == u
    ensures FeedAll(POLYNOMIAL, r, [a, b] + rest) == FeedAll(POLYNOMIAL, u, rest)
  {
    assert ([a, b] + rest)[1..] == [b] + rest && ([b] + rest)[1..] == rest;
  }

  /** The errors 0x89 in the last byte of a message and 0xA1 in the low byte of the
      checksum, which travels right behind it, cancel out. */
  lemma CancellingErrors()
    ensures Left(ByteBits(0x89)) == Zeros(8) + ByteBits(0xA1)
  {
    FirstHalf();
    SecondHalf();
    assert ByteBits(0x89) == [true, false] + ([false, false] + [true, false, false, true]);
    assert Only({8, 10, 15}) == Zeros(8) + ByteBits(0xA1);
  }

  lemma FirstHalf()
    ensures forall rest: Bits ::
              Left([true, false] + ([false, false] + rest)) == FeedAll(POLYNOMIAL, Only({0, 7, 12}), rest)
  {
    assert Only({}) == Zeros(16);
    FeedsTo({}, true, {3, 10, 15});
    FeedsTo({3, 10, 15}, false, {2, 9, 14});
    FeedsTo({2, 9, 14}, false, {1, 8, 13});
    FeedsTo({1, 8, 13}, false, {0, 7, 12});
    forall rest: Bits
      ensures Left([true, false] + ([false, false] + rest)) == FeedAll(POLYNOMIAL, Only({0, 7, 12}), rest)
    {
      FeedTwo(Zeros(16), true, false, [false, false] + rest, Only({3, 10, 15}), Only({2, 9, 14}));
      FeedTwo(Only({2, 9, 14}), false, false, rest, Only({1, 8, 13}), Only({0, 7, 12}));
    }
  }

  lemma SecondHalf()
    ensures FeedAll(POLYNOMIAL, Only({0, 7, 12}), [true, false, false, true]) == Only({8, 10, 15})
  {
    FeedsTo({0, 7, 12}, true, {6, 11});
    FeedsTo({6, 11}, false, {5, 10});
    FeedsTo({5, 10}, false, {4, 9});
    FeedsTo({4, 9}, true, {8, 10, 15});
    FeedTwo(Only({0, 7, 12}), true, false, [false, true], Only({6, 11}), Only({5, 10}));
    FeedTwo(Only({5, 10}), false, true, [], Only({4, 9}), Only({8, 10, 15}));
    assert [true, false, false, true] == [true, false] + [false, true];
    assert [false, true] == [false, true] + [];
  }

  lemma QuietThen(n: nat, e: Bits)
    ensures Left(Zeros(n) + e) == Left(e)
  {
    FeedConcat(POLYNOMIAL, Zeros(16), Zeros(n), e);
    QuietHead(POLYNOMIAL, n);
  }

  lemma BitsOfOne(x: byte)
    ensures MessageBits([x]) == ByteBits(x)
  {
    assert [x][1..] == [] && MessageBits([]) == [];
  }

  lemma ErrorOfLastByte(front: seq<byte>, x: byte, y: byte, e: Bits)
    requires |e| == 8 && Xor(ByteBits(y), ByteBits(x)) == e
    ensures Xor(MessageBits(front + [y]), MessageBits(front + [x])) == Zeros(8 * |front|) + e
  {
    var m := MessageBits(front);
    MessageBitsConcat(front, [x]);
    MessageBitsConcat(front, [y]);
    BitsOfOne(x);
    BitsOfOne(y);
    XorConcat(m, ByteBits(y), m, ByteBits(x));
    XorZeros(m);
  }

  lemma ErrorOfLowByte(high: Bits, low: Bits, e: Bits)
    requires |high| == 8 && |low| == |e|
    ensures Xor(high + low, Zeros(8) + e) == high + Xor(low, e)
  {
    XorConcat(high, low, Zeros(8), e);
    XorZeros(high);
  }

  lemma FlippedWord(high: byte, low: byte, mask: byte, e: Bits)
    requires e == Zeros(8) + ByteBits(mask)
    ensures Word(256 * high + Flip(low, mask)) == Xor(Word(256 * high + low), e)
  {
    FlipBits(low, mask);
    ErrorOfLowByte(ByteBits(high), ByteBits(low), ByteBits(mask));
    WordOfBytes(high, low);
    WordOfBytes(high, Flip(low, mask));
  }

  lemma WordOfBytes(high: byte, low: byte)
    ensures Word(256 * high + low) == ByteBits(high) + ByteBits(low)
  {
    assert (256 * high + low) / 256 == high && (256 * high + low) % 256 == low;
  }

  lemma LeftByLastByte(a: seq<byte>, b: seq<byte>, front: seq<byte>, x: byte, e: Register)
    requires b == front + [x] && a == front + [Flip(x, 0x89)] && e == Zeros(8) + ByteBits(0xA1)
    ensures Left(Xor(MessageBits(a), MessageBits(b))) == e
  {
    FlipBits(x, 0x89);
    ErrorOfLastByte(front, x, Flip(x, 0x89), ByteBits(0x89));
    QuietThen(8 * |front|, ByteBits(0x89));
    CancellingErrors();
  }

  lemma PassesWith(a: seq<byte>, b: seq<byte>, c: u16, crc: u16, e: Register)
    requires |a| == |b| && Checksum(b) == c && Word(crc) == Xor(Word(c), e)
    requires Left(Xor(MessageBits(a), MessageBits(b))) == e
    ensures Checksum(a) == crc
  {
    PassesIff(a, b, crc);
  }

  lemma BurstPasses(a: seq<byte>, b: seq<byte>, front: seq<byte>, x: byte, high: byte, low: byte)
    requires b == front + [x] && a == front + [Flip(x, 0x89)] && Checksum(b) == 256 * high + low
    ensures Checksum(a) == 256 * high + Flip(low, 0xA1)
  {
    var e: Register := Zeros(8) + ByteBits(0xA1);
    LeftByLastByte(a, b, front, x, e);
    FlippedWord(high, low, 0xA1, e);
    PassesWith(a, b, 256 * high + low, 256 * high + Flip(low, 0xA1), e);
  }

  /** So two errors within sixteen bits on the wire, across the border between message and
      checksum, go undetected, whatever the message. */
  lemma StraddlingBurstPasses(front: seq<byte>, x: byte, high: byte, low: byte)
    requires Checksum(front + [x]) == 256 * high + low
    ensures Checksum(front + [Flip(x, 0x89)]) == 256 * high + Flip(low, 0xA1)
  {
    BurstPasses(front + [Flip(x, 0x89)], front + [x], front, x, high, low);
  }
}
