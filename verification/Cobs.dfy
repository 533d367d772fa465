// Consistent Overhead Byte Stuffing (Cheshire & Baker, 1999) as the link uses it:
// what the stuffed image of a byte string is, that unstuffing is its exact
// inverse, and the two in-place loops proved against that.
module Cobs {
  import opened Bytes
  import opened Wrappers

  /** The longest run one code byte can announce. */
  const BLOCK := 254

  ghost predicate ZeroFree(s: seq<byte>) {
    forall i :: 0 <= i < |s| ==> s[i] != 0
  }

  /** Length of the leading run of non-zero bytes. */
  function Run(s: seq<byte>): (r: nat)
    ensures r <= |s| && ZeroFree(s[..r])
    ensures r < |s| ==> s[r] == 0
  {
    if s == [] || s[0] == 0 then 0 else
      var r := Run(s[1..]);
      assert s[..r + 1] == [s[0]] + s[1..][..r];
      r + 1
  }

  /** The stuffed image, block by block. */
  function Encode(s: seq<byte>): (w: seq<byte>)
    ensures w != []
    decreases |s|
  {
    var r := Run(s);
    if r >= BLOCK then [255] + s[..BLOCK] + Encode(s[BLOCK..])
    else if r == |s| then [r + 1] + s
    else [r + 1] + s[..r] + Encode(s[r + 1..])
  }

  function Prepend(front: seq<byte>, back: Option<seq<byte>>): Option<seq<byte>> {
    if back.None? then None else Some(front + back.value)
  }

  /** Bytes a block with this code contributes when `more` blocks follow. */
  function BlockData(w: seq<byte>): seq<byte>
    requires w != [] && 0 < w[0] <= |w|
  {
    w[1..w[0]] + if w[0] != 255 && w[0] < |w| then [0] else []
  }

  /** None when a code byte is zero or announces more bytes than there are. */
  function Decode(w: seq<byte>): Option<seq<byte>>
    decreases |w|
  {
    if w == [] then Some([])
    else if w[0] == 0 || |w| < w[0] then None
    else Prepend(BlockData(w), Decode(w[w[0]..]))
  }

  /** The last code byte does not announce a full block. */
  ghost predicate EndsShort(w: seq<byte>)
    decreases |w|
  {
    w != [] && 0 < w[0] <= |w| && if w[0] == |w| then w[0] != 255 else EndsShort(w[w[0]..])
  }

  /** Full 254-byte blocks, counted over the maximal non-zero runs of the input. */
  function FullBlocks(s: seq<byte>): nat
    decreases |s|
  {
    var r := Run(s);
    r / BLOCK + if r == |s| then 0 else FullBlocks(s[r + 1..])
  }

  lemma RunIs(s: seq<byte>, r: nat)
    requires r <= |s| && ZeroFree(s[..r]) && (r == |s| || s[r] == 0)
    ensures Run(s) == r
  {
    assert forall i :: 0 <= i < r ==> s[..r][i] == s[i];
  }

  lemma RunAtLeast(s: seq<byte>, r: nat)
    requires r <= |s| && ZeroFree(s[..r])
    ensures Run(s) >= r
  {
    assert forall i :: 0 <= i < r ==> s[..r][i] == s[i];
  }

  lemma RunDrop(s: seq<byte>, k: nat)
    requires k <= Run(s)
    ensures Run(s[k..]) == Run(s) - k
  {
    var r := Run(s);
    assert forall i :: 0 <= i < r - k ==> s[k..][i] == s[..r][k + i];
    RunIs(s[k..], r - k);
  }

  /** One block of a wire string: a code byte and the bytes it announces. */
  ghost predicate IsBlock(code: int, data: seq<byte>) {
    1 <= code <= 255 && |data| == code - 1
  }

  lemma DecodeBlock(code: byte, data: seq<byte>, rest: seq<byte>)
    requires IsBlock(code, data)
    ensures Decode([code] + data + rest)
         == Prepend(data + if code != 255 && rest != [] then [0] else [], Decode(rest))
  {
    var w := [code] + data + rest;
    assert w[1..code] == data && w[code..] == rest;
  }

  lemma ShapeBlock(code: byte, data: seq<byte>, rest: seq<byte>)
    requires IsBlock(code, data)
    ensures ZeroFree([code] + data + rest) <==> ZeroFree(data) && ZeroFree(rest)
    ensures EndsShort([code] + data + rest) <==> if rest == [] then code != 255 else EndsShort(rest)
  {
    var w := [code] + data + rest;
    assert w[code..] == rest;
    assert forall i :: 0 <= i < |data| ==> data[i] == w[i + 1];
    assert forall i :: 0 <= i < |rest| ==> rest[i] == w[i + code];
  }

  lemma EncodeBlock(data: seq<byte>, rest: seq<byte>)
    requires |data| <= BLOCK && ZeroFree(data)
    requires |data| < BLOCK ==> rest != [] ==> rest[0] == 0
    ensures |data| == BLOCK ==> Encode(data + rest) == [255] + data + Encode(rest)
    ensures |data| < BLOCK && rest == [] ==> Encode(data + rest) == [|data| + 1] + data
    ensures |data| < BLOCK && rest != [] ==>
              Encode(data + rest) == [|data| + 1] + data + Encode(rest[1..])
  {
    var s := data + rest;
    assert s[..|data|] == data && s[|data|..] == rest;
    if |data| == BLOCK {
      RunAtLeast(s, BLOCK);
    } else {
      RunIs(s, |data|);
      assert rest != [] ==> s[|data| + 1..] == rest[1..];
      assert rest == [] ==> s == data;
    }
  }

  // ------------------------------------------------------------ round trips

  lemma DecodeJoin(code: byte, data: seq<byte>, rest: seq<byte>, back: seq<byte>)
    requires IsBlock(code, data) && rest != [] && Decode(rest) == Some(back)
    ensures Decode([code] + data + rest) == Some(data + (if code != 255 then [0] else []) + back)
  {
    DecodeBlock(code, data, rest);
  }

  lemma DecodeLast(data: seq<byte>)
    requires |data| < BLOCK
    ensures Decode([|data| + 1] + data) == Some(data)
  {
    assert [|data| + 1] + data + [] == [|data| + 1] + data && data + [] + [] == data;
    DecodeBlock(|data| + 1, data, []);
  }

  lemma Rejoin(s: seq<byte>, r: nat)
    requires r <= |s|
    ensures s[..r] + [] + s[r..] == s
    ensures r < |s| && s[r] == 0 ==> s[..r] + [0] + s[r + 1..] == s
  {
  }

  lemma EncodeFull(s: seq<byte>)
    requires Run(s) >= BLOCK
    ensures Encode(s) == [255] + s[..BLOCK] + Encode(s[BLOCK..])
  {
  }

  lemma EncodeShort(s: seq<byte>, r: nat)
    requires r == Run(s) < BLOCK && r < |s|
    ensures Encode(s) == [r + 1] + s[..r] + Encode(s[r + 1..])
  {
  }

  lemma EncodeCases(s: seq<byte>, r: nat)
    requires r == Run(s)
    ensures r >= BLOCK ==> Encode(s) == [255] + s[..BLOCK] + Encode(s[BLOCK..])
    ensures r < BLOCK && r < |s| ==> Encode(s) == [r + 1] + s[..r] + Encode(s[r + 1..])
  {
    if r >= BLOCK {
      EncodeFull(s);
    } else if r < |s| {
      EncodeShort(s, r);
    }
  }

  lemma {:induction false} DecodeEncode(s: seq<byte>)
    ensures Decode(Encode(s)) == Some(s)
    decreases |s|
  {
    var r := Run(s);
    EncodeCases(s, r);
    if r >= BLOCK {
      var rest := s[BLOCK..];
      DecodeEncode(rest);
      DecodeJoin(255, s[..BLOCK], Encode(rest), rest);
      Rejoin(s, BLOCK);
    } else if r == |s| {
      DecodeLast(s);
    } else {
      var rest := s[r + 1..];
      DecodeEncode(rest);
      DecodeJoin(r + 1, s[..r], Encode(rest), rest);
      Rejoin(s, r);
    }
  }

  lemma {:induction false} EncodeShape(s: seq<byte>)
    ensures ZeroFree(Encode(s)) && EndsShort(Encode(s))
    decreases |s|
  {
    var r := Run(s);
    if r >= BLOCK {
      EncodeShape(s[BLOCK..]);
      assert ZeroFree(s[..BLOCK]) by {
        assert forall i :: 0 <= i < BLOCK ==> s[..BLOCK][i] == s[..r][i];
      }
      ShapeBlock(255, s[..BLOCK], Encode(s[BLOCK..]));
    } else if r == |s| {
      assert s == s[..r] && [r + 1] + s + [] == [r + 1] + s;
      ShapeBlock(r + 1, s, []);
    } else {
      EncodeShape(s[r + 1..]);
      ShapeBlock(r + 1, s[..r], Encode(s[r + 1..]));
    }
  }

  lemma {:induction false} EncodedLength(s: seq<byte>)
    ensures |Encode(s)| == |s| + 1 + FullBlocks(s)
    decreases |s|
  {
    var r := Run(s);
    if r >= BLOCK {
      EncodedLength(s[BLOCK..]);
      RunDrop(s, BLOCK);
      assert r < |s| ==> s[BLOCK..][r - BLOCK + 1..] == s[r + 1..];
    } else if r < |s| {
      EncodedLength(s[r + 1..]);
    }
  }

  lemma {:induction false} NoFullBlocks(s: seq<byte>)
    requires |s| < BLOCK
    ensures FullBlocks(s) == 0
    decreases |s|
  {
    if Run(s) < |s| {
      NoFullBlocks(s[Run(s) + 1..]);
    }
  }

  /** A string that unstuffs is the stuffed image of its value exactly when it is
      free of zeros and does not end in a full block. */
  lemma {:induction false} EncodeDecode(w: seq<byte>)
    requires Decode(w).Some?
    ensures Encode(Decode(w).value) == w <==> ZeroFree(w) && EndsShort(w)
  {
    if Encode(Decode(w).value) == w {
      EncodeShape(Decode(w).value);
    }
    if ZeroFree(w) && EndsShort(w) {
      EncodeDecodeCanonical(w);
    }
  }

  lemma {:induction false} EncodeDecodeCanonical(w: seq<byte>)
    requires Decode(w).Some? && ZeroFree(w) && EndsShort(w)
    ensures Encode(Decode(w).value) == w
    decreases |w|
  {
    var c := w[0];
    var data, rest := w[1..c], w[c..];
    assert w == [c] + data + rest;
    DecodeBlock(c, data, rest);
    ShapeBlock(c, data, rest);
    if rest != [] {
      EncodeDecodeCanonical(rest);
      EncodeDecodedBlock(c, data, rest, Decode(rest).value);
    } else {
      assert data + [] + [] == data && [c] + data + [] == [c] + data;
      EncodeBlock(data, []);
    }
  }

  lemma EncodeDecodedBlock(c: byte, data: seq<byte>, rest: seq<byte>, back: seq<byte>)
    requires IsBlock(c, data) && ZeroFree(data) && Encode(back) == rest
    ensures Encode(data + (if c != 255 then [0] else []) + back) == [c] + data + rest
  {
    if c == 255 {
      assert data + [] + back == data + back;
      EncodeBlock(data, back);
    } else {
      assert data + [0] + back == data + ([0] + back) && ([0] + back)[1..] == back;
      EncodeBlock(data, [0] + back);
    }
  }

  /** Nothing the link can hold ends in a full block, so a frame has one wire image. */
  lemma {:induction false} ShortStringsAreCanonical(w: seq<byte>)
    requires 0 < |w| <= BLOCK && ZeroFree(w) && Decode(w).Some?
    ensures Encode(Decode(w).value) == w
  {
    ShortEndsShort(w);
    EncodeDecode(w);
  }

  lemma {:induction false} ShortEndsShort(w: seq<byte>)
    requires 0 < |w| <= BLOCK && Decode(w).Some?
    ensures EndsShort(w)
    decreases |w|
  {
    if w[0] < |w| {
      ShortEndsShort(w[w[0]..]);
    }
  }

  /** Above the link's limit two strings can stand for one value. */
  lemma FullBlockHasTwoImages(b: byte)
    requires b != 0
    ensures var w := [255] + seq(BLOCK, _ => b);
            ZeroFree(w) && !EndsShort(w) && Decode(w).Some? && Decode(w + [1]) == Decode(w)
  {
    var run := seq(BLOCK, _ => b);
    var w := [255] + run;
    assert w[255..] == [] && BlockData(w) == run;
    assert (w + [1])[255..] == [1] && BlockData(w + [1]) == run;
    assert [1][1..] == [];
    assert BlockData([1]) == [];
    assert Decode([1]) == Some([]);
    assert run + [] == run;
  }

  // ----------------------------------------------------------- the two loops

  /** The loop's picture of its output: the finished part, a hole for the code
      byte of the open block, and the block so far. */
  ghost predicate Layout(output: seq<byte>, codeIndex: nat, code: int, done: seq<byte>, block: seq<byte>) {
    && 1 <= code <= 255 && codeIndex + code <= |output| && |done| == codeIndex && |block| == code - 1
    && output[..codeIndex] == done && output[codeIndex + 1..codeIndex + code] == block
    && ZeroFree(block)
  }

  method WriteCode(output: array<byte>, codeIndex: nat, code: byte, ghost done: seq<byte>, ghost block: seq<byte>)
    returns (ghost finished: seq<byte>)
    requires Layout(output[..], codeIndex, code, done, block)
    modifies output
    ensures finished == done + [code] + block && output[..codeIndex + code] == finished
    ensures forall i :: codeIndex + code <= i < output.Length ==> output[i] == old(output[i])
  {
    assert output[..][..codeIndex] == output[..codeIndex];
    assert output[..][codeIndex + 1..codeIndex + code] == output[codeIndex + 1..codeIndex + code];
    output[codeIndex] := code;
    assert output[..codeIndex] == done && output[codeIndex + 1..codeIndex + code] == block;
    finished := done + [code] + block;
  }

  method PutByte(output: array<byte>, codeIndex: nat, code: byte, value: byte, ghost done: seq<byte>,
                 ghost block: seq<byte>)
    requires Layout(output[..], codeIndex, code, done, block) && code < 255 && value != 0
    requires codeIndex + code < output.Length
    modifies output
    ensures Layout(output[..], codeIndex, code + 1, done, block + [value])
    ensures forall i :: codeIndex + code < i < output.Length ==> output[i] == old(output[i])
  {
    ghost var before := output[..];
    output[codeIndex + code] := value;
    assert output[..] == before[codeIndex + code := value];
    ghost var after := before[codeIndex + code := value];
    assert after[..codeIndex] == before[..codeIndex];
    assert after[codeIndex + 1..codeIndex + code + 1] == before[codeIndex + 1..codeIndex + code] + [value];
  }

  /** What is left to do: `image` is the finished part plus the image of the open block and the rest. */
  ghost predicate Pending(image: seq<byte>, done: seq<byte>, block: seq<byte>, rest: seq<byte>) {
    image == done + Encode(block + rest)
  }

  lemma StepZero(image: seq<byte>, done: seq<byte>, code: byte, block: seq<byte>, rest: seq<byte>)
    requires |block| == code - 1 < BLOCK && ZeroFree(block) && rest != [] && rest[0] == 0
    requires Pending(image, done, block, rest)
    ensures Pending(image, done + [code] + block, [], rest[1..])
    ensures |image| > |done| + |block| + 1
  {
    EncodeBlock(block, rest);
    assert [] + rest[1..] == rest[1..];
    EncodedLength(rest[1..]);
  }

  lemma StepByte(image: seq<byte>, done: seq<byte>, block: seq<byte>, rest: seq<byte>)
    requires rest != [] && rest[0] != 0 && ZeroFree(block) && Pending(image, done, block, rest)
    ensures ZeroFree(block + [rest[0]]) && Pending(image, done, block + [rest[0]], rest[1..])
    ensures |image| > |done| + |block| + 1
  {
    assert block + rest == block + [rest[0]] + rest[1..];
    EncodedLength(block + rest);
  }

  lemma StepFull(image: seq<byte>, done: seq<byte>, block: seq<byte>, rest: seq<byte>)
    requires |block| == BLOCK && ZeroFree(block) && Pending(image, done, block, rest)
    ensures Pending(image, done + [255] + block, [], rest)
    ensures |image| > |done| + BLOCK + 1
  {
    EncodeBlock(block, rest);
    assert [] + rest == rest;
    EncodedLength(rest);
  }

  lemma StepEnd(image: seq<byte>, done: seq<byte>, block: seq<byte>)
    requires |block| < BLOCK && ZeroFree(block) && Pending(image, done, block, [])
    ensures image == done + [|block| + 1] + block
  {
    EncodeBlock(block, []);
  }

  /** The loop invariant of cobs_encode_. */
  ghost predicate Encoding(output: seq<byte>, capacity: nat, codeIndex: nat, code: int, image: seq<byte>,
                           done: seq<byte>, block: seq<byte>, rest: seq<byte>) {
    && code < 255 && codeIndex + code <= capacity
    && Layout(output, codeIndex, code, done, block)
    && Pending(image, done, block, rest)
  }

  /** Closing the open block: its code byte is written and the next block opened, if there is room. */
  method CloseBlock(output: array<byte>, capacity: nat, codeIndex: nat, code: byte, ghost image: seq<byte>,
                    ghost done: seq<byte>, ghost block: seq<byte>, ghost rest: seq<byte>)
    returns (ok: bool, ghost finished: seq<byte>)
    requires capacity <= output.Length && codeIndex + code <= capacity
    requires Layout(output[..], codeIndex, code, done, block)
    requires Pending(image, done + [code] + block, [], rest) && |image| > codeIndex + code
    modifies output
    ensures ok == (codeIndex + code + 1 <= capacity) && (!ok ==> |image| > capacity)
    ensures ok ==> Encoding(output[..], capacity, codeIndex + code, 1, image, finished, [], rest)
    ensures forall i :: capacity <= i < output.Length ==> output[i] == old(output[i])
  {
    finished := WriteCode(output, codeIndex, code, done, block);
    assert output[..][..codeIndex + code] == output[..codeIndex + code];
    ok := codeIndex + code + 1 <= capacity;
  }

  /** One round of the loop. */
  method EncodeByte(output: array<byte>, capacity: nat, codeIndex: nat, code: byte, b: byte, ghost image: seq<byte>,
                    ghost done: seq<byte>, ghost block: seq<byte>, ghost rest: seq<byte>)
    returns (ok: bool, codeIndex': nat, code': byte, ghost done': seq<byte>, ghost block': seq<byte>)
    requires capacity <= output.Length && rest != [] && rest[0] == b
    requires Encoding(output[..], capacity, codeIndex, code, image, done, block, rest)
    modifies output
    ensures ok ==> Encoding(output[..], capacity, codeIndex', code', image, done', block', rest[1..])
    ensures !ok ==> |image| > capacity
    ensures forall i :: capacity <= i < output.Length ==> output[i] == old(output[i])
  {
    codeIndex', code', done', block' := codeIndex, code, done, block;
    if b == 0 {
      StepZero(image, done, code, block, rest);
      ok, done' := CloseBlock(output, capacity, codeIndex, code, image, done, block, rest[1..]);
      codeIndex', code', block' := codeIndex + code, 1, [];
    } else {
      StepByte(image, done, block, rest);
      if codeIndex + code >= capacity {
        return false, codeIndex', code', done', block';
      }
      PutByte(output, codeIndex, code, b, done, block);
      code', block' := code + 1, block + [b];
      ok := true;
      if code' == 255 {
        StepFull(image, done, block', rest[1..]);
        ok, done' := CloseBlock(output, capacity, codeIndex, 255, image, done, block', rest[1..]);
        codeIndex', code', block' := codeIndex + 255, 1, [];
      }
    }
  }

  /** cobs_encode_: succeeds exactly when the image fits the capacity. The write
      index of the source is codeIndex + code throughout. */
  method CobsEncode(input: array<byte>, length: nat, output: array<byte>, capacity: nat)
    returns (written: nat)
    requires length <= input.Length && capacity <= output.Length && input != output
    modifies output
    ensures var image := Encode(old(input[..length]));
            if |image| <= capacity then written == |image| && output[..written] == image
            else written == 0
    ensures forall i :: capacity <= i < output.Length ==> output[i] == old(output[i])
  {
    ghost var all := input[..length];
    ghost var image := Encode(all);
    if capacity == 0 {
      return 0;
    }
    written := EncodeLoop(input, length, output, capacity, image);
  }

  method EncodeLoop(input: array<byte>, length: nat, output: array<byte>, capacity: nat, ghost image: seq<byte>)
    returns (written: nat)
    requires length <= input.Length && 0 < capacity <= output.Length && input != output
    requires image == Encode(input[..length])
    modifies output
    ensures if |image| <= capacity then written == |image| && output[..written] == image else written == 0
    ensures forall i :: capacity <= i < output.Length ==> output[i] == old(output[i])
  {
    ghost var all := input[..length];
    ghost var done: seq<byte>, block: seq<byte>, rest := [], [], all;
    var readIndex, codeIndex, code, ok := 0, 0, 1, true;
    assert Pending(image, [], [], all) by {
      assert [] + all == all;
    }
    while readIndex < length
      invariant readIndex <= length && all == input[..length] && rest == all[readIndex..]
      invariant Encoding(output[..], capacity, codeIndex, code, image, done, block, rest)
      invariant forall i :: capacity <= i < output.Length ==> output[i] == old(output[i])
    {
      assert rest[0] == input[readIndex] && rest[1..] == all[readIndex + 1..];
      ok, codeIndex, code, done, block :=
        EncodeByte(output, capacity, codeIndex, code, input[readIndex], image, done, block, rest);
      if !ok {
        return 0;
      }
      readIndex, rest := readIndex + 1, rest[1..];
    }
    StepEnd(image, done, block);
    done := WriteCode(output, codeIndex, code, done, block);
    return codeIndex + code;
  }

  lemma PrependEmpty(back: Option<seq<byte>>)
    ensures Prepend([], back) == back
  {
    assert back.Some? ==> [] + back.value == back.value;
  }

  lemma PrependTwice(a: seq<byte>, b: seq<byte>, back: Option<seq<byte>>)
    ensures Prepend(a, Prepend(b, back)) == Prepend(a + b, back)
  {
    assert back.Some? ==> a + (b + back.value) == a + b + back.value;
  }

  /** The inner loop: the code - 1 bytes of one block, unless input or room runs out. */
  method CopyBlock(input: array<byte>, length: nat, output: array<byte>, capacity: nat, start: nat, at: nat, code: byte)
    returns (ok: bool)
    requires start <= length <= input.Length && at <= capacity <= output.Length && input != output && code > 0
    modifies output
    ensures ok == (start + code - 1 <= length && at + code - 1 <= capacity)
    ensures ok ==> output[..at + code - 1] == old(output[..at]) + old(input[start..start + code - 1])
  {
    ghost var done, all := output[..at], input[..];
    var i := 1;
    while i < code
      invariant 1 <= i <= code && start + i - 1 <= length && at + i - 1 <= capacity
      invariant output[..at + i - 1] == done + all[start..start + i - 1]
    {
      if start + i - 1 >= length || at + i - 1 >= capacity {
        return false;
      }
      ghost var before := output[..at + i - 1];
      output[at + i - 1] := input[start + i - 1];
      assert output[..at + i] == before + [all[start + i - 1]];
      i := i + 1;
    }
    ok := true;
  }

  /** cobs_decode_: zero stands for malformed input, for a value longer than the
      capacity, and for the empty value alike. */
  method CobsDecode(input: array<byte>, length: nat, output: array<byte>, capacity: nat)
    returns (written: nat)
    requires length <= input.Length && capacity <= output.Length && input != output
    modifies output
    ensures var d := Decode(old(input[..length]));
            if d.Some? && |d.value| <= capacity
            then written == |d.value| && output[..written] == d.value
            else written == 0
  {
    ghost var all := input[..length];
    ghost var value := Decode(all);
    var readIndex, writeIndex := 0, 0;
    assert all[0..] == all && output[..0] == [];
    PrependEmpty(Decode(all));
    while readIndex < length
      invariant readIndex <= length && writeIndex <= capacity && all == input[..length]
      invariant value == Prepend(output[..writeIndex], Decode(all[readIndex..]))
    {
      ghost var rest, done := all[readIndex..], output[..writeIndex];
      var code := input[readIndex];
      assert rest[0] == code;
      if code == 0 {
        return 0;
      }
      var ok := CopyBlock(input, length, output, capacity, readIndex + 1, writeIndex, code);
      if !ok {
        DecodeNeeds(rest, done);
        return 0;
      }
      assert input[readIndex + 1..readIndex + code] == rest[1..code];
      readIndex, writeIndex := readIndex + code, writeIndex + code - 1;
      assert rest[code..] == all[readIndex..];
      if code != 255 && readIndex < length {
        if writeIndex >= capacity {
          DecodeNeeds(rest, done);
          return 0;
        }
        ghost var before := output[..writeIndex];
        output[writeIndex] := 0;
        writeIndex := writeIndex + 1;
        assert output[..writeIndex] == before + [0];
      }
      assert output[..writeIndex] == done + BlockData(rest);
      PrependTwice(done, BlockData(rest), Decode(all[readIndex..]));
    }
    assert all[readIndex..] == [];
    return writeIndex;
  }

  /** What the block in front contributes, whatever follows it. */
  lemma DecodeNeeds(rest: seq<byte>, done: seq<byte>)
    requires rest != [] && rest[0] != 0
    ensures |rest| < rest[0] ==> Decode(rest) == None
    ensures rest[0] <= |rest| && Decode(rest).Some? ==>
              |Prepend(done, Decode(rest)).value| >= |done| + |BlockData(rest)|
  {
  }
}
