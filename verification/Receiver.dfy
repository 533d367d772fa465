// The byte-at-a-time receiver as a state machine, and the split-and-judge
// specification it refines.
module Receiver {
  import opened Bytes
  import opened Frames
  import Cobs
  import PriorityQueue

  datatype Stats = Stats(received: nat, sent: nat, crcErrors: nat, decodeErrors: nat, versionErrors: nat,
                         queueOverflows: nat)

  /** rx_wire_[..rx_length_] is `pending`; `queue` is the contents of the frame ring. */
  datatype Inbox = Inbox(synchronized: bool, pending: seq<byte>, queue: seq<Frame>, stats: Stats)

  ghost predicate Valid(s: Inbox) {
    |s.pending| <= MAX_WIRE_FRAME && Cobs.ZeroFree(s.pending) && (!s.synchronized ==> s.pending == [])
  }

  // ------------------------------------------------------------ the machine

  /** decode_received_frame_ */
  function Judge(s: Inbox, piece: seq<byte>): Inbox {
    Record(s, Receive(piece))
  }

  function Record(s: Inbox, verdict: Verdict): Inbox {
    match verdict
    case DecodeError => s.(stats := s.stats.(decodeErrors := s.stats.decodeErrors + 1))
    case VersionError => s.(stats := s.stats.(versionErrors := s.stats.versionErrors + 1))
    case CrcError => s.(stats := s.stats.(crcErrors := s.stats.crcErrors + 1))
    case Accepted(f) =>
      if |s.queue| >= PriorityQueue.CAPACITY
      then s.(stats := s.stats.(queueOverflows := s.stats.queueOverflows + 1))
      else s.(queue := s.queue + [f], stats := s.stats.(received := s.stats.received + 1))
  }

  function DecodeErrors(s: Inbox, n: nat): Inbox {
    s.(stats := s.stats.(decodeErrors := s.stats.decodeErrors + n))
  }

  /** One round of the poll loop. */
  function OnByte(s: Inbox, b: byte): Inbox {
    if !s.synchronized then s.(synchronized := b == 0)
    else if b == 0 then (if s.pending != [] then Judge(s, s.pending) else s).(pending := [])
    else if |s.pending| >= MAX_WIRE_FRAME then DecodeErrors(s, 1).(pending := [])
    else s.(pending := s.pending + [b])
  }

  function OnBytes(s: Inbox, stream: seq<byte>): Inbox
    decreases stream
  {
    if stream == [] then s else OnBytes(OnByte(s, stream[0]), stream[1..])
  }

  // ------------------------------------------------------ the specification

  /** The stream cut at its zero bytes; the last piece is not yet delimited. */
  function Pieces(stream: seq<byte>): (pieces: seq<seq<byte>>)
    ensures pieces != []
    decreases |stream|
  {
    var z := Cobs.Run(stream);
    if z == |stream| then [stream] else [stream[..z]] + Pieces(stream[z + 1..])
  }

  const OVERSIZE := MAX_WIRE_FRAME + 1

  /** What is left of a piece after each full buffer of it was thrown away. */
  function Remains(piece: seq<byte>): (r: seq<byte>)
    ensures |r| < OVERSIZE
    ensures |piece| <= MAX_WIRE_FRAME ==> r == piece
  {
    piece[|piece| / OVERSIZE * OVERSIZE..]
  }

  function JudgePiece(s: Inbox, piece: seq<byte>): Inbox {
    var t := DecodeErrors(s, |piece| / OVERSIZE);
    if Remains(piece) == [] then t else Judge(t, Remains(piece))
  }

  function JudgeAll(s: Inbox, pieces: seq<seq<byte>>): Inbox
    decreases |pieces|
  {
    if pieces == [] then s else JudgeAll(JudgePiece(s, pieces[0]), pieces[1..])
  }

  function SplitAndJudge(s: Inbox, stream: seq<byte>): Inbox {
    var pieces := Pieces(s.pending + stream);
    var last := pieces[|pieces| - 1];
    var t := JudgeAll(s.(pending := []), pieces[..|pieces| - 1]);
    Fill(t, last)
  }

  /** The frames the judged pieces amount to, however many the queue can hold. */
  function AcceptedFrames(pieces: seq<seq<byte>>): seq<Frame>
    decreases |pieces|
  {
    if pieces == [] then []
    else
      var v := Receive(Remains(pieces[0]));
      (if Remains(pieces[0]) != [] && v.Accepted? then [v.frame] else []) + AcceptedFrames(pieces[1..])
  }

  /** What each verdict is counted as. */
  lemma CountedAs(s: Inbox, verdict: Verdict)
    ensures var t, a, b := Record(s, verdict), s.stats, Record(s, verdict).stats;
            && b.decodeErrors == a.decodeErrors + (if verdict.DecodeError? then 1 else 0)
            && b.versionErrors == a.versionErrors + (if verdict.VersionError? then 1 else 0)
            && b.crcErrors == a.crcErrors + (if verdict.CrcError? then 1 else 0)
            && b.received == a.received + (if verdict.Accepted? && |s.queue| < PriorityQueue.CAPACITY then 1 else 0)
            && b.queueOverflows
               == a.queueOverflows + (if verdict.Accepted? && |s.queue| >= PriorityQueue.CAPACITY then 1 else 0)
            && b.sent == a.sent && t.synchronized == s.synchronized && t.pending == s.pending
  {
  }

  // ------------------------------------------------------------- refinement

  lemma {:induction false} OnBytesConcat(s: Inbox, a: seq<byte>, b: seq<byte>)
    ensures OnBytes(s, a + b) == OnBytes(OnBytes(s, a), b)
    decreases a
  {
    if a == [] {
      assert a + b == b;
    } else {
      assert (a + b)[1..] == a[1..] + b;
      OnBytesConcat(OnByte(s, a[0]), a[1..], b);
    }
  }

  lemma OnByteValid(s: Inbox, b: byte)
    requires Valid(s)
    ensures Valid(OnByte(s, b))
  {
  }

  lemma {:induction false} OnBytesValid(s: Inbox, stream: seq<byte>)
    requires Valid(s)
    ensures Valid(OnBytes(s, stream))
    decreases stream
  {
    if stream != [] {
      OnByteValid(s, stream[0]);
      OnBytesValid(OnByte(s, stream[0]), stream[1..]);
    }
  }

  lemma RemainsOfFull(front: seq<byte>, rest: seq<byte>)
    requires |front| == OVERSIZE
    ensures Remains(front + rest) == Remains(rest)
    ensures |front + rest| / OVERSIZE == 1 + |rest| / OVERSIZE
  {
    var n := |rest| / OVERSIZE;
    assert |front + rest| / OVERSIZE == 1 + n;
    assert (front + rest)[(1 + n) * OVERSIZE..] == rest[n * OVERSIZE..];
  }

  lemma DecodeErrorsTwice(s: Inbox, a: nat, b: nat)
    ensures DecodeErrors(DecodeErrors(s, a), b) == DecodeErrors(s, a + b)
  {
  }

  /** What the buffer holds after these bytes, and how often it overflowed on the way. */
  function Fill(s: Inbox, text: seq<byte>): Inbox {
    DecodeErrors(s, |text| / OVERSIZE).(pending := Remains(text))
  }

  lemma FillFull(s: Inbox, b: byte, rest: seq<byte>)
    requires |s.pending| == MAX_WIRE_FRAME
    ensures Fill(DecodeErrors(s, 1).(pending := []), [] + rest) == Fill(s, s.pending + ([b] + rest))
  {
    var front := s.pending + [b];
    assert [] + rest == rest && s.pending + ([b] + rest) == front + rest;
    RemainsOfFull(front, rest);
    DecodeErrorsTwice(s, 1, |rest| / OVERSIZE);
  }

  /** Bytes between delimiters only fill the buffer, restarting it whenever it is full. */
  lemma {:induction false} FillBuffer(s: Inbox, data: seq<byte>)
    requires Valid(s) && s.synchronized && Cobs.ZeroFree(data)
    ensures OnBytes(s, data) == Fill(s, s.pending + data)
    decreases data
  {
    if data == [] {
      assert s.pending + data == s.pending;
      NoOversize(s, s.pending);
    } else {
      var b, rest := data[0], data[1..];
      var t := OnByte(s, b);
      assert Cobs.ZeroFree(rest) && data == [b] + rest;
      OnByteValid(s, b);
      FillBuffer(t, rest);
      if |s.pending| == MAX_WIRE_FRAME {
        FillFull(s, b, rest);
      } else {
        assert t.pending + rest == s.pending + data;
        FillFromOther(s, t.pending, s.pending + data);
      }
    }
  }

  lemma FillFromOther(s: Inbox, p: seq<byte>, text: seq<byte>)
    ensures Fill(s.(pending := p), text) == Fill(s, text)
  {
  }

  lemma JudgeKeepsPending(s: Inbox, piece: seq<byte>, p: seq<byte>)
    ensures Judge(s.(pending := p), piece) == Judge(s, piece).(pending := p)
  {
  }

  lemma Delimit(s: Inbox, piece: seq<byte>)
    ensures OnByte(DecodeErrors(s, |piece| / OVERSIZE).(pending := Remains(piece), synchronized := true), 0)
         == JudgePiece(s.(pending := [], synchronized := true), piece)
  {
    JudgeKeepsPending(DecodeErrors(s, |piece| / OVERSIZE).(synchronized := true), Remains(piece), Remains(piece));
    JudgeKeepsPending(DecodeErrors(s, |piece| / OVERSIZE).(synchronized := true), Remains(piece), []);
  }

  /** A synchronized receiver computes exactly "cut at the zeros and judge each piece". */
  lemma {:induction false} PollRefinesSplit(s: Inbox, stream: seq<byte>)
    requires Valid(s) && s.synchronized
    ensures OnBytes(s, stream) == SplitAndJudge(s, stream)
    decreases |stream|
  {
    var z := Cobs.Run(stream);
    var all := s.pending + stream;
    if z == |stream| {
      assert stream[..z] == stream;
      FillBuffer(s, stream);
      RunAppend(s.pending, stream);
    } else {
      var data, rest := stream[..z], stream[z + 1..];
      assert stream == data + ([0] + rest);
      var t := ToTheZero(s, data, rest);
      PollRefinesSplit(t, rest);
      FirstPiece(s, data, rest, t);
    }
  }

  /** The machine up to and including the first zero. */
  lemma ToTheZero(s: Inbox, data: seq<byte>, rest: seq<byte>) returns (t: Inbox)
    requires Valid(s) && s.synchronized && Cobs.ZeroFree(data)
    ensures OnBytes(s, data + ([0] + rest)) == OnBytes(t, rest) && Valid(t) && t.synchronized && t.pending == []
    ensures t == JudgePiece(s.(pending := []), s.pending + data)
  {
    OnBytesConcat(s, data, [0] + rest);
    FillBuffer(s, data);
    assert ([0] + rest)[1..] == rest;
    Delimit(s, s.pending + data);
    t := JudgePiece(s.(pending := []), s.pending + data);
    JudgeKeepsSync(DecodeErrors(s.(pending := []), |s.pending + data| / OVERSIZE), Remains(s.pending + data));
  }

  lemma RunAppend(p: seq<byte>, stream: seq<byte>)
    requires Cobs.ZeroFree(p)
    ensures Cobs.Run(p + stream) == |p| + Cobs.Run(stream)
  {
    var r := Cobs.Run(stream);
    assert (p + stream)[..|p| + r] == p + stream[..r];
    assert r < |stream| ==> (p + stream)[|p| + r] == stream[r];
    Cobs.RunIs(p + stream, |p| + r);
  }

  lemma JudgeKeepsSync(s: Inbox, piece: seq<byte>)
    ensures Judge(s, piece).synchronized == s.synchronized && Judge(s, piece).pending == s.pending
  {
  }

  lemma PiecesOf(front: seq<byte>, rest: seq<byte>)
    requires Cobs.ZeroFree(front)
    ensures Pieces(front + ([0] + rest)) == [front] + Pieces(rest)
  {
    var all := front + ([0] + rest);
    assert all[..|front|] == front && all[|front| + 1..] == rest;
    Cobs.RunIs(all, |front|);
  }

  lemma FirstPiece(s: Inbox, data: seq<byte>, rest: seq<byte>, t: Inbox)
    requires Cobs.ZeroFree(s.pending) && Cobs.ZeroFree(data)
    requires t == JudgePiece(s.(pending := []), s.pending + data) && t.pending == []
    ensures SplitAndJudge(s, data + ([0] + rest)) == SplitAndJudge(t, rest)
  {
    var tail := Pieces(rest);
    var whole, last := tail[..|tail| - 1], tail[|tail| - 1];
    WithFirst(s, data, rest, t, whole, last);
    WithoutFirst(t, rest, whole, last);
  }

  lemma WithFirst(s: Inbox, data: seq<byte>, rest: seq<byte>, t: Inbox, whole: seq<seq<byte>>, last: seq<byte>)
    requires Cobs.ZeroFree(s.pending) && Cobs.ZeroFree(data) && Pieces(rest) == whole + [last]
    requires t == JudgePiece(s.(pending := []), s.pending + data)
    ensures SplitAndJudge(s, data + ([0] + rest)) == Fill(JudgeAll(t, whole), last)
  {
    var front := s.pending + data;
    assert s.pending + (data + ([0] + rest)) == front + ([0] + rest);
    PiecesOf(front, rest);
    assert [front] + (whole + [last]) == [front] + whole + [last];
    SplitInto(s, data + ([0] + rest), [front] + whole, last);
    JudgeFirst(s.(pending := []), front, whole);
  }

  lemma WithoutFirst(t: Inbox, rest: seq<byte>, whole: seq<seq<byte>>, last: seq<byte>)
    requires t.pending == [] && Pieces(rest) == whole + [last]
    ensures SplitAndJudge(t, rest) == Fill(JudgeAll(t, whole), last)
  {
    assert t.pending + rest == rest && t.(pending := []) == t;
    SplitInto(t, rest, whole, last);
  }

  lemma SplitInto(s: Inbox, stream: seq<byte>, whole: seq<seq<byte>>, last: seq<byte>)
    requires Pieces(s.pending + stream) == whole + [last]
    ensures SplitAndJudge(s, stream) == Fill(JudgeAll(s.(pending := []), whole), last)
  {
    var pieces := Pieces(s.pending + stream);
    assert pieces[..|pieces| - 1] == whole && pieces[|pieces| - 1] == last;
  }

  lemma JudgeFirst(s: Inbox, piece: seq<byte>, pieces: seq<seq<byte>>)
    ensures JudgeAll(s, [piece] + pieces) == JudgeAll(JudgePiece(s, piece), pieces)
  {
    assert ([piece] + pieces)[1..] == pieces;
  }

  /** Before synchronization everything up to and including the first zero is dropped. */
  lemma {:induction false} Synchronize(s: Inbox, stream: seq<byte>)
    requires Valid(s) && !s.synchronized
    ensures OnBytes(s, stream)
         == if Cobs.Run(stream) == |stream| then s
            else OnBytes(s.(synchronized := true), stream[Cobs.Run(stream) + 1..])
    decreases stream
  {
    if stream != [] && stream[0] != 0 {
      assert OnByte(s, stream[0]) == s;
      Synchronize(s, stream[1..]);
      RunAppend(stream[..1], stream[1..]);
      assert stream[..1] + stream[1..] == stream;
      var z := Cobs.Run(stream[1..]);
      assert z < |stream[1..]| ==> stream[1..][z + 1..] == stream[z + 2..];
    }
  }

  /** However the stream is cut into calls of poll, the result is the same. */
  lemma {:induction false} AnySplitIntoCalls(s: Inbox, calls: seq<seq<byte>>)
    ensures OnCalls(s, calls) == OnBytes(s, Concat(calls))
    decreases calls
  {
    if calls != [] {
      AnySplitIntoCalls(OnBytes(s, calls[0]), calls[1..]);
      OnBytesConcat(s, calls[0], Concat(calls[1..]));
    }
  }

  function OnCalls(s: Inbox, calls: seq<seq<byte>>): Inbox
    decreases calls
  {
    if calls == [] then s else OnCalls(OnBytes(s, calls[0]), calls[1..])
  }

  // ------------------------------------------------------- what it amounts to

  /** The state after judging, as far as the queue and its two counters go. */
  ghost predicate Took(s: Inbox, t: Inbox, frames: seq<Frame>)
    requires |s.queue| <= PriorityQueue.CAPACITY
  {
    var n := Min(|frames|, PriorityQueue.CAPACITY - |s.queue|);
    && t.queue == s.queue + frames[..n]
    && t.stats.received == s.stats.received + n
    && t.stats.queueOverflows == s.stats.queueOverflows + (|frames| - n)
  }

  lemma AcceptedFirst(pieces: seq<seq<byte>>)
    requires pieces != []
    ensures AcceptedFrames(pieces) == AcceptedFrames([pieces[0]]) + AcceptedFrames(pieces[1..])
  {
    var one := [pieces[0]];
    assert one[1..] == [];
  }

  lemma JudgePieceTakes(s: Inbox, piece: seq<byte>)
    requires |s.queue| <= PriorityQueue.CAPACITY
    ensures Took(s, JudgePiece(s, piece), AcceptedFrames([piece]))
  {
    AcceptedFirst([piece]);
  }

  lemma TookTwice(s: Inbox, t: Inbox, u: Inbox, a: seq<Frame>, b: seq<Frame>)
    requires |s.queue| <= PriorityQueue.CAPACITY && Took(s, t, a)
    requires |t.queue| <= PriorityQueue.CAPACITY && Took(t, u, b)
    ensures Took(s, u, a + b)
  {
    var room := PriorityQueue.CAPACITY - |s.queue|;
    if |a| <= room {
      assert a[..|a|] == a;
      var m := Min(|b|, room - |a|);
      assert (a + b)[..|a| + m] == a + b[..m];
    } else {
      assert (a + b)[..room] == a[..room];
    }
  }

  /** The queue gains the accepted frames in stream order, as far as it has room;
      the surplus is counted. */
  lemma {:induction false} JudgeAllTakes(s: Inbox, pieces: seq<seq<byte>>)
    requires |s.queue| <= PriorityQueue.CAPACITY
    ensures Took(s, JudgeAll(s, pieces), AcceptedFrames(pieces))
    decreases |pieces|
  {
    if pieces != [] {
      var t := JudgePiece(s, pieces[0]);
      JudgePieceTakes(s, pieces[0]);
      JudgeAllTakes(t, pieces[1..]);
      TookTwice(s, t, JudgeAll(t, pieces[1..]), AcceptedFrames([pieces[0]]), AcceptedFrames(pieces[1..]));
      AcceptedFirst(pieces);
    }
  }

  function Counted(s: Stats): nat {
    s.received + s.crcErrors + s.decodeErrors + s.versionErrors + s.queueOverflows
  }

  lemma RecordCounts(s: Inbox, verdict: Verdict)
    ensures Counted(Record(s, verdict).stats) == Counted(s.stats) + 1
    ensures Grows(s.stats, Record(s, verdict).stats)
  {
  }

  /** No counter moves back. */
  ghost predicate Grows(a: Stats, b: Stats) {
    && a.received <= b.received && a.crcErrors <= b.crcErrors && a.decodeErrors <= b.decodeErrors
    && a.versionErrors <= b.versionErrors && a.queueOverflows <= b.queueOverflows && a.sent == b.sent
  }

  /** Each delimited piece that fits the buffer moves exactly one counter, by one. */
  lemma EachPieceCountsOnce(s: Inbox, piece: seq<byte>)
    requires 0 < |piece| <= MAX_WIRE_FRAME
    ensures Counted(JudgePiece(s, piece).stats) == Counted(s.stats) + 1
    ensures Grows(s.stats, JudgePiece(s, piece).stats)
  {
    RecordCounts(s, Receive(piece));
    JudgeFitting(s, piece);
  }

  lemma JudgeFitting(s: Inbox, piece: seq<byte>)
    requires 0 < |piece| <= MAX_WIRE_FRAME
    ensures JudgePiece(s, piece) == Record(s, Receive(piece))
  {
    assert |piece| / OVERSIZE == 0 && DecodeErrors(s, 0) == s;
  }

  /** The whole of poll: what a stream adds to the queue, in order, until the queue is full. */
  lemma PollDelivers(s: Inbox, stream: seq<byte>)
    requires Valid(s) && s.synchronized && |s.queue| <= PriorityQueue.CAPACITY
    ensures var frames, t := AcceptedFrames(Delimited(s, stream)), OnBytes(s, stream);
            && t.queue == s.queue + frames[..Min(|frames|, PriorityQueue.CAPACITY - |s.queue|)]
            && t.stats.queueOverflows - s.stats.queueOverflows
               == |frames| - Min(|frames|, PriorityQueue.CAPACITY - |s.queue|)
  {
    PollRefinesSplit(s, stream);
    JudgeAllTakes(s.(pending := []), Delimited(s, stream));
  }

  /** The pieces a stream completes. */
  function Delimited(s: Inbox, stream: seq<byte>): seq<seq<byte>> {
    var pieces := Pieces(s.pending + stream);
    pieces[..|pieces| - 1]
  }

  /** From any state whatever, a zero and then one sent image delivers that frame. */
  lemma SelfSynchronizes(s: Inbox, f: Frame)
    requires Valid(s)
    requires |OnBytes(s, [0]).queue| < PriorityQueue.CAPACITY
    ensures OnBytes(s, [0] + Image(f)).queue == OnBytes(s, [0]).queue + [f]
    ensures OnBytes(s, [0] + Image(f)).pending == []
  {
    var t := OnBytes(s, [0]);
    OnBytesConcat(s, [0], Image(f));
    OnBytesValid(s, [0]);
    assert [0][1..] == [];
    assert t.synchronized && t.pending == [] by {
      JudgeKeepsSync(s, s.pending);
    }
    ImageIsDelivered(t, f);
  }

  lemma OnZero(u: Inbox)
    requires u.synchronized && u.pending != []
    ensures OnBytes(u, [0]) == Judge(u, u.pending).(pending := [])
  {
    assert [0][1..] == [];
  }

  lemma JudgePending(t: Inbox, w: seq<byte>)
    requires t.pending == []
    ensures Judge(t.(pending := w), w).(pending := []) == Judge(t, w)
  {
    JudgeKeepsPending(t, w, w);
    JudgeKeepsSync(t, w);
  }

  lemma Buffered(t: Inbox, w: seq<byte>)
    requires Valid(t) && t.synchronized && t.pending == [] && |w| <= MAX_WIRE_FRAME && Cobs.ZeroFree(w)
    ensures OnBytes(t, w) == t.(pending := w)
  {
    FillBuffer(t, w);
    assert t.pending + w == w;
    NoOversize(t, w);
  }

  lemma NoOversize(t: Inbox, w: seq<byte>)
    requires |w| <= MAX_WIRE_FRAME
    ensures Fill(t, w) == t.(pending := w)
  {
    assert |w| / OVERSIZE == 0;
  }

  lemma OnePiece(t: Inbox, w: seq<byte>)
    requires Valid(t) && t.synchronized && t.pending == []
    requires 0 < |w| <= MAX_WIRE_FRAME && Cobs.ZeroFree(w)
    ensures OnBytes(t, w + [0]) == Judge(t, w)
  {
    OnBytesConcat(t, w, [0]);
    Buffered(t, w);
    OnZero(t.(pending := w));
    JudgePending(t, w);
  }

  lemma ImageIsDelivered(t: Inbox, f: Frame)
    requires Valid(t) && t.synchronized && t.pending == [] && |t.queue| < PriorityQueue.CAPACITY
    ensures OnBytes(t, Image(f)) == t.(queue := t.queue + [f], stats := t.stats.(received := t.stats.received + 1))
  {
    ImageFits(f);
    ReceiveImage(f);
    OnePiece(t, Cobs.Encode(Raw(f)));
  }
}
