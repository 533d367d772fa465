// Division of polynomials over GF(2), bit by bit, as checksum registers do it: what a
// register holds, and which differences between two messages it never loses.
module Division {
  import opened Words

  /** x^n + g[0] x^(n-1) + ... + g[n-1], with n = |g|; the leading coefficient is not written,
      and the last one is 1. */
  type Generator = g: Bits | |g| > 0 && g[|g| - 1] witness [true]

  // ------------------------------------------------- the register divides

  function Shift(r: Bits): (s: Bits)
    requires r != []
    ensures |s| == |r|
  {
    r[1..] + [false]
  }

  /** One turn of a register loop. */
  function Step(g: Generator, r: Bits): (s: Bits)
    requires |r| == |g|
    ensures |s| == |g|
  {
    if r[0] then Xor(Shift(r), g) else Shift(r)
  }

  function Steps(g: Generator, n: nat, r: Bits): (s: Bits)
    requires |r| == |g|
    ensures |s| == |g|
  {
    if n == 0 then r else Step(g, Steps(g, n - 1, r))
  }

  /** One message bit enters the register. */
  function Feed(g: Generator, r: Bits, bit: bool): (f: Bits)
    requires |r| == |g|
    ensures |f| == |g|
  {
    seq(|g|, i requires 0 <= i < |g| => (i + 1 < |g| && r[i + 1]) != ((r[0] != bit) && g[i]))
  }

  function FeedAll(g: Generator, r: Bits, message: Bits): (f: Bits)
    requires |r| == |g|
    ensures |f| == |g|
    decreases message
  {
    if message == [] then r else FeedAll(g, Feed(g, r, message[0]), message[1..])
  }

  /** Schoolbook division: strike the leading coefficient, subtracting the generator if it is set. */
  function Strike(g: Generator, s: Bits): (t: Bits)
    requires |s| > |g|
    ensures |t| == |s| - 1
  {
    seq(|s| - 1, i requires 0 <= i < |s| - 1 => s[i + 1] != (s[0] && i < |g| && g[i]))
  }

  function Remainder(g: Generator, s: Bits): (r: Bits)
    requires |s| >= |g|
    ensures |r| == |g|
    decreases |s|
  {
    if |s| == |g| then s else Remainder(g, Strike(g, s))
  }

  lemma StepFeeds(g: Generator, r: Bits)
    requires |r| == |g|
    ensures Step(g, r) == Feed(g, r, false)
  {
  }

  /** A word xor'd in up front is the same as its bits fed one at a time. */
  lemma FeedPending(g: Generator, r: Bits, pending: Bits)
    requires |r| == |pending| == |g|
    ensures Feed(g, Xor(r, pending), false) == Xor(Feed(g, r, pending[0]), Shift(pending))
  {
  }

  lemma {:induction false} StepsFeed(g: Generator, n: nat, c: Bits, r: Bits, pending: Bits)
    requires |r| == |pending| == |g| && n <= |g| && c == Xor(r, pending)
    ensures Steps(g, n, c) == Xor(FeedAll(g, r, pending[..n]), pending[n..] + Zeros(n))
  {
    if n == 0 {
      assert pending[0..] + Zeros(0) == pending;
    } else {
      StepsFeed(g, n - 1, c, r, pending);
      var p := pending[n - 1..] + Zeros(n - 1);
      StepFeeds(g, Steps(g, n - 1, c));
      FeedPending(g, FeedAll(g, r, pending[..n - 1]), p);
      FeedLast(g, r, pending[..n - 1], pending[n - 1]);
      assert pending[..n] == pending[..n - 1] + [pending[n - 1]];
      ShiftPending(pending, n);
    }
  }

  lemma ShiftPending(pending: Bits, n: nat)
    requires 0 < n <= |pending|
    ensures Shift(pending[n - 1..] + Zeros(n - 1)) == pending[n..] + Zeros(n)
  {
  }

  lemma {:induction false} FeedLast(g: Generator, r: Bits, message: Bits, bit: bool)
    requires |r| == |g|
    ensures FeedAll(g, r, message + [bit]) == Feed(g, FeedAll(g, r, message), bit)
    decreases message
  {
    if message != [] {
      FeedLast(g, Feed(g, r, message[0]), message[1..], bit);
      assert (message + [bit])[1..] == message[1..] + [bit];
    } else {
      assert [bit][1..] == [];
    }
  }

  lemma {:induction false} FeedConcat(g: Generator, r: Bits, a: Bits, b: Bits)
    requires |r| == |g|
    ensures FeedAll(g, r, a + b) == FeedAll(g, FeedAll(g, r, a), b)
    decreases a
  {
    if a == [] {
      assert a + b == b;
    } else {
      FeedConcat(g, Feed(g, r, a[0]), a[1..], b);
      assert (a + b)[1..] == a[1..] + b;
    }
  }

  /** A byte, or any other bits up to the width, xor'd onto the front of the register and
      shifted through it have been fed. */
  lemma StepsFeedFront(g: Generator, r: Bits, front: Bits)
    requires |r| == |g| && |front| <= |g|
    ensures Steps(g, |front|, Xor(r, front + Zeros(|g| - |front|))) == FeedAll(g, r, front)
  {
    var n, pending := |front|, front + Zeros(|g| - |front|);
    StepsFeed(g, n, Xor(r, pending), r, pending);
    assert pending[..n] == front && pending[n..] + Zeros(n) == Zeros(|g|);
    XorZeros(FeedAll(g, r, front));
  }

  /** Feeding divides: the register becomes the remainder of (message times x^n), with what
      it held before subtracted from the first n bits. */
  lemma {:induction false} FeedIsDivision(g: Generator, r: Bits, message: Bits)
    requires |r| == |g|
    ensures FeedAll(g, r, message) == Remainder(g, Xor(r + Zeros(|message|), message + Zeros(|g|)))
    decreases message
  {
    var s := Xor(r + Zeros(|message|), message + Zeros(|g|));
    if message == [] {
      assert s == r;
    } else {
      var r', rest := Feed(g, r, message[0]), message[1..];
      assert Strike(g, s) == Xor(r' + Zeros(|rest|), rest + Zeros(|g|));
      FeedIsDivision(g, r', rest);
    }
  }

  // ------------------------------------------------------- no state is lost

  /** The register before this bit was fed. */
  function Unfeed(g: Generator, f: Bits, bit: bool): (r: Bits)
    requires |f| == |g|
    ensures |r| == |g|
  {
    [f[|g| - 1] != bit] + seq(|g| - 1, i requires 0 <= i < |g| - 1 => f[i] != (f[|g| - 1] && g[i]))
  }

  function UnfeedAll(g: Generator, f: Bits, bits: Bits): (r: Bits)
    requires |f| == |g|
    ensures |r| == |g|
    decreases bits
  {
    if bits == [] then f else Unfeed(g, UnfeedAll(g, f, bits[1..]), bits[0])
  }

  lemma UnfeedUndoes(g: Generator, r: Bits, f: Bits, bit: bool)
    requires |r| == |f| == |g|
    ensures Feed(g, r, bit) == f <==> Unfeed(g, f, bit) == r
  {
    assert Feed(g, Unfeed(g, f, bit), bit) == f;
    assert Unfeed(g, Feed(g, r, bit), bit) == r;
  }

  lemma {:induction false} UnfeedAllUndoes(g: Generator, r: Bits, f: Bits, bits: Bits)
    requires |r| == |f| == |g|
    ensures FeedAll(g, r, bits) == f <==> UnfeedAll(g, f, bits) == r
    decreases bits
  {
    if bits != [] {
      UnfeedAllUndoes(g, Feed(g, r, bits[0]), f, bits[1..]);
      UnfeedUndoes(g, r, UnfeedAll(g, f, bits[1..]), bits[0]);
    }
  }

  // -------------------------------------------------------------- differences

  lemma FeedXor(g: Generator, r: Bits, s: Bits, a: bool, b: bool)
    requires |r| == |s| == |g|
    ensures Xor(Feed(g, r, a), Feed(g, s, b)) == Feed(g, Xor(r, s), a != b)
  {
  }

  /** The difference of two registers depends on the difference of what they were fed alone. */
  lemma {:induction false} FeedAllXor(g: Generator, r: Bits, s: Bits, a: Bits, b: Bits)
    requires |r| == |s| == |g| && |a| == |b|
    ensures Xor(FeedAll(g, r, a), FeedAll(g, s, b)) == FeedAll(g, Xor(r, s), Xor(a, b))
    decreases a
  {
    if a != [] {
      FeedXor(g, r, s, a[0], b[0]);
      FeedAllXor(g, Feed(g, r, a[0]), Feed(g, s, b[0]), a[1..], b[1..]);
      assert Xor(a, b)[1..] == Xor(a[1..], b[1..]);
    }
  }

  lemma FeedInjective(g: Generator, r: Bits)
    requires |r| == |g| && Feed(g, r, false) == Zeros(|g|)
    ensures r == Zeros(|g|)
  {
    var f, n := Feed(g, r, false), |g|;
    assert f[n - 1] == r[0];
    assert forall i :: 0 < i < n ==> f[i - 1] == r[i];
  }

  /** Error-free bits never bring a disturbed register back. */
  lemma {:induction false} QuietTail(g: Generator, r: Bits, n: nat)
    requires |r| == |g| && FeedAll(g, r, Zeros(n)) == Zeros(|g|)
    ensures r == Zeros(|g|)
    decreases n
  {
    if n > 0 {
      assert Zeros(n)[1..] == Zeros(n - 1);
      QuietTail(g, Feed(g, r, false), n - 1);
      FeedInjective(g, r);
    }
  }

  lemma {:induction false} QuietHead(g: Generator, n: nat)
    ensures FeedAll(g, Zeros(|g|), Zeros(n)) == Zeros(|g|)
  {
    if n > 0 {
      assert Zeros(n)[1..] == Zeros(n - 1);
      assert Feed(g, Zeros(|g|), false) == Zeros(|g|);
      QuietHead(g, n - 1);
    }
  }

  /** Feeding the full width into the zero register can be undone: it is as many empty
      steps of those bits. */
  lemma {:induction false} WidthFed(g: Generator, n: nat, pending: Bits, r: Bits)
    requires |r| == |pending| == |g| && n <= |g|
    requires FeedAll(g, r, pending[..n]) == Zeros(|g|) && pending[n..] == Zeros(|g| - n)
    ensures FeedAll(g, Xor(r, pending), Zeros(n)) == Zeros(|g|)
    decreases n
  {
    if n == 0 {
      assert pending == Zeros(|g|) && Xor(r, pending) == r;
    } else {
      var next := Shift(pending);
      FeedPending(g, r, pending);
      assert pending[..n][1..] == next[..n - 1];
      assert next[n - 1..] == Zeros(|g| - (n - 1));
      WidthFed(g, n - 1, next, Feed(g, r, pending[0]));
      assert Zeros(n)[1..] == Zeros(n - 1);
    }
  }

  lemma WidthIsSeen(g: Generator, burst: Bits)
    requires |burst| == |g| && FeedAll(g, Zeros(|g|), burst) == Zeros(|g|)
    ensures burst == Zeros(|g|)
  {
    assert burst[..|g|] == burst;
    WidthFed(g, |g|, burst, Zeros(|g|));
    QuietTail(g, Xor(Zeros(|g|), burst), |g|);
    assert burst == Xor(Zeros(|g|), burst);
  }

  lemma BurstBetweenZeros(g: Generator, e: Bits, before: nat, burst: Bits, after: nat)
    requires |burst| == |g| && e == Zeros(before) + (burst + Zeros(after))
    requires FeedAll(g, Zeros(|g|), e) == Zeros(|g|)
    ensures burst == Zeros(|g|)
  {
    FeedConcat(g, Zeros(|g|), Zeros(before), burst + Zeros(after));
    QuietHead(g, before);
    FeedConcat(g, Zeros(|g|), burst, Zeros(after));
    QuietTail(g, FeedAll(g, Zeros(|g|), burst), after);
    WidthIsSeen(g, burst);
  }

  /** The bits set lie within `width` consecutive ones. */
  ghost predicate WithinWindow(e: Bits, start: nat, width: nat) {
    forall i :: 0 <= i < |e| && !(start <= i < start + width) ==> !e[i]
  }

  lemma WindowSplit(e: Bits, start: nat, width: nat) returns (burst: Bits, after: nat)
    requires start + width <= |e| && WithinWindow(e, start, width)
    ensures |burst| == width && e == Zeros(start) + (burst + Zeros(after))
  {
    burst, after := e[start..start + width], |e| - start - width;
  }

  lemma AllZeros(e: Bits, before: nat, burst: Bits, after: nat)
    requires burst == Zeros(|burst|) && e == Zeros(before) + (burst + Zeros(after))
    ensures e == Zeros(|e|)
  {
  }

  lemma QuietBurst(g: Generator, e: Bits, before: nat, burst: Bits, after: nat)
    requires |burst| == |g| && e == Zeros(before) + (burst + Zeros(after))
    requires FeedAll(g, Zeros(|g|), e) == Zeros(|g|)
    ensures e == Zeros(|e|)
  {
    BurstBetweenZeros(g, e, before, burst, after);
    AllZeros(e, before, burst, after);
  }

  /** A difference within the width of the register always leaves a trace. */
  lemma BurstLeavesATrace(g: Generator, e: Bits, start: nat)
    requires start + |g| <= |e| && WithinWindow(e, start, |g|)
    requires FeedAll(g, Zeros(|g|), e) == Zeros(|g|)
    ensures e == Zeros(|e|)
  {
    var burst, after := WindowSplit(e, start, |g|);
    QuietBurst(g, e, start, burst, after);
  }

  /** Two registers that started alike and end alike were fed alike, if what they were fed
      differs at most within the width. */
  lemma BurstSeen(g: Generator, r: Bits, a: Bits, b: Bits, start: nat)
    requires |r| == |g| && |a| == |b| && FeedAll(g, r, a) == FeedAll(g, r, b)
    requires forall i :: 0 <= i < |a| && !(start <= i < start + |g|) ==> a[i] == b[i]
    ensures a == b
  {
    if |a| < |g| {
      var more := Zeros(|g| - |a|);
      FeedConcat(g, r, a, more);
      FeedConcat(g, r, b, more);
      BurstInside(g, r, a + more, b + more, 0);
      assert (a + more)[..|a|] == a && (b + more)[..|a|] == b;
    } else {
      BurstInside(g, r, a, b, if start + |g| <= |a| then start else |a| - |g|);
    }
  }

  lemma BurstInside(g: Generator, r: Bits, a: Bits, b: Bits, start: nat)
    requires |r| == |g| && |a| == |b| && start + |g| <= |a| && FeedAll(g, r, a) == FeedAll(g, r, b)
    requires forall i :: 0 <= i < |a| && !(start <= i < start + |g|) ==> a[i] == b[i]
    ensures a == b
  {
    SameRegister(g, r, a, b);
    BurstLeavesATrace(g, Xor(a, b), start);
    assert forall i :: 0 <= i < |a| ==> Xor(a, b)[i] == (a[i] != b[i]);
  }

  lemma SameRegister(g: Generator, r: Bits, a: Bits, b: Bits)
    requires |r| == |g| && |a| == |b| && FeedAll(g, r, a) == FeedAll(g, r, b)
    ensures FeedAll(g, Zeros(|g|), Xor(a, b)) == Zeros(|g|)
  {
    FeedAllXor(g, r, r, a, b);
    XorZeros(r);
    XorZeros(FeedAll(g, r, a));
  }

  // ------------------------------------------------------------------ parity

  /** An odd number of bits is set. */
  predicate Odd(s: Bits) {
    s != [] && s[0] != Odd(s[1..])
  }

  lemma {:induction false} OddXor(a: Bits, b: Bits)
    requires |a| == |b|
    ensures Odd(Xor(a, b)) <==> (Odd(a) != Odd(b))
  {
    if a != [] {
      OddXor(a[1..], b[1..]);
      assert Xor(a, b)[1..] == Xor(a[1..], b[1..]);
    }
  }

  lemma {:induction false} OddConcat(a: Bits, b: Bits)
    ensures Odd(a + b) <==> (Odd(a) != Odd(b))
  {
    if a == [] {
      assert a + b == b;
    } else {
      OddConcat(a[1..], b);
      assert (a + b)[1..] == a[1..] + b;
    }
  }

  lemma {:induction false} OddZeros(n: nat)
    ensures !Odd(Zeros(n))
  {
    if n > 0 {
      assert Zeros(n)[1..] == Zeros(n - 1);
      OddZeros(n - 1);
    }
  }

  /** With an even number of terms in the generator the register keeps the parity of what
      it was fed. */
  lemma FeedParity(g: Generator, r: Bits, bit: bool)
    requires |r| == |g| && Odd(g)
    ensures Odd(Feed(g, r, bit)) <==> (Odd(r) != bit)
  {
    OddConcat(r[1..], [false]);
    if r[0] != bit {
      assert Feed(g, r, bit) == Xor(Shift(r), g);
      OddXor(Shift(r), g);
    } else {
      assert Feed(g, r, bit) == Shift(r);
    }
  }

  lemma {:induction false} FeedAllParity(g: Generator, r: Bits, message: Bits)
    requires |r| == |g| && Odd(g)
    ensures Odd(FeedAll(g, r, message)) <==> (Odd(r) != Odd(message))
    decreases message
  {
    if message != [] {
      FeedParity(g, r, message[0]);
      FeedAllParity(g, Feed(g, r, message[0]), message[1..]);
    }
  }
}
