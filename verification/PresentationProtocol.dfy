// Bridge and S3 showing one presentation after another: control frames keep their
// order but may be lost, answers may be lost, repeated and late, and a new
// presentation may be queued while the last one is still being sent.
module PresentationProtocol {
  import opened Bytes
  import opened CoverUrl
  import opened Presentation
  import opened Wrappers

  datatype Body =
    | BeginShow(key: Key)
    | Title(text: seq<byte>)
    | Artist(text: seq<byte>)
    | Cover(msg: Msg)
    | CommitShow(key: Key)

  /** A frame under way, with the presentation it was sent for. */
  datatype Packet = Packet(show: nat, body: Body)

  /** A URL acknowledgement under way, with the URL the S3 took over when it sent it. */
  datatype Answer = Answer(ack: Msg, taken: Option<Url>)

  /** `owner` remembers the presentation of each URL transfer id, `seen` the latest
      presentation a frame was delivered of, `begun` that of the last BEGIN taken up,
      `committed` that of the last COMMIT taken up. These four are history. */
  datatype Sys = Sys(shows: seq<Show>, sender: Sender, stage: Stage, receiver: Receiver, wire: seq<Packet>,
                     up: set<Answer>, owner: map<u16, nat>, seen: nat, begun: nat, committed: Option<nat>)

  datatype Action =
    | Present(show: Show)
    | Poll(linkUp: bool)
    | Accept(answer: Answer)
    | Deliver
    | BridgeStatus(up: bool, atomic: bool)
    | LinkDown
    | Lose(at: nat)
    | LoseAnswers(answers: set<Answer>)

  ghost predicate Initial(s: Sys) {
    && s.shows == [] && s.sender == Sender([], 0, 0, Idle, false)
    && !s.stage.pending && s.stage.last == Key(0, 0) && !s.receiver.active
    && s.wire == [] && s.up == {} && s.owner == map[] && s.seen == 0 && s.begun == 0 && s.committed == None
  }

  /** Home Assistant numbers its updates, so a number stands for one content: it comes
      again only when the last presentation is sent again. */
  ghost predicate Numbered(shows: seq<Show>, show: Show) {
    if shows != [] && shows[|shows| - 1].key == show.key then shows[|shows| - 1] == show
    else forall i :: 0 <= i < |shows| ==> shows[i].key != show.key
  }

  /** No frame, answer or receiver still refers to this transfer id. */
  ghost predicate NoTrace(s: Sys, id: u16) {
    && (forall p :: p in s.wire && p.body.Cover? ==> p.body.msg.id != id)
    && (forall a :: a in s.up ==> a.ack.id != id)
    && (s.receiver.active ==> s.receiver.id != id)
  }

  ghost predicate Enabled(s: Sys, a: Action) {
    match a
    case Present(show) => Numbered(s.shows, show) && NoTrace(s, s.sender.NextId())
    case Accept(answer) => answer in s.up && answer.ack.Ack?
    case Deliver => s.wire != []
    case Lose(at) => at < |s.wire|
    case _ => true
  }

  /** queue_bridge_media_presentation; the cover URL was cut to nothing if too long. */
  function Presented(s: Sys, show: Show): Sys {
    var (sender, _) := s.sender.Queue(show.cover);
    var n := |s.shows|;
    s.(shows := s.shows + [show], sender := sender, owner := s.owner[sender.id := n],
       wire := s.wire + [Packet(n, BeginShow(show.key)), Packet(n, Title(CutText(show.title))),
                         Packet(n, Artist(CutText(show.artist)))])
  }

  function Polled(s: Sys, linkUp: bool): Sys
    requires s.sender.Valid()
  {
    var (sender, msg) := s.sender.Poll(linkUp);
    if msg.None? || s.shows == [] then s.(sender := sender)
    else s.(sender := sender, wire := s.wire + [Packet(|s.shows| - 1, Cover(msg.value))])
  }

  /** The COVER_URL_ACK case: a good result is followed by the COMMIT. */
  function Accepted(s: Sys, ack: Msg): Sys
    requires ack.Ack?
  {
    var (sender, result) := s.sender.Acknowledge(ack);
    if result != Some(0) || s.shows == [] then s.(sender := sender)
    else
      var n := |s.shows| - 1;
      s.(sender := sender, wire := s.wire + [Packet(n, CommitShow(s.shows[n].key))])
  }

  function CoverDelivered(s: Sys, msg: Msg): Sys {
    var (receiver, url, ack) := s.receiver.Receive(msg);
    s.(receiver := receiver, stage := if url.Some? then s.stage.Cover(url.value) else s.stage,
       up := if ack.Some? then s.up + {Answer(ack.value, url)} else s.up)
  }

  function Delivered(s: Sys): Sys
    requires s.wire != []
  {
    var p := s.wire[0];
    var t := s.(wire := s.wire[1..], seen := p.show);
    match p.body
    case BeginShow(key) => t.(stage := s.stage.Begin(key), begun := if s.stage.atomic then p.show else s.begun)
    case Title(text) => t.(stage := s.stage.Title(text))
    case Artist(text) => t.(stage := s.stage.Artist(text))
    case Cover(msg) => CoverDelivered(t, msg)
    case CommitShow(key) =>
      t.(stage := s.stage.Commit(key), committed := if s.stage.Commits(key) then Some(p.show) else s.committed)
  }

  ghost function Apply(s: Sys, a: Action): Sys
    requires s.sender.Valid() && Enabled(s, a)
  {
    match a
    case Present(show) => Presented(s, show)
    case Poll(linkUp) => Polled(s, linkUp)
    case Accept(answer) => Accepted(s, answer.ack)
    case Deliver => Delivered(s)
    case BridgeStatus(up, atomic) => s.(stage := s.stage.BridgeStatus(up, atomic))
    case LinkDown => s.(stage := s.stage.LinkDown())
    case Lose(at) => s.(wire := s.wire[..at] + s.wire[at + 1..])
    case LoseAnswers(answers) => s.(up := s.up - answers)
  }

  // -------------------------------------------------------------- invariants

  /** Presentations with one number are one presentation, as are all between them. */
  ghost predicate Blocks(shows: seq<Show>) {
    forall i, j, k :: 0 <= i <= j <= k < |shows| && shows[i].key == shows[k].key ==> shows[j] == shows[i]
  }

  ghost predicate GoodUrl(shows: seq<Show>, owner: map<u16, nat>, id: u16, n: nat) {
    n < |shows| && id in owner && owner[id] == n
  }

  ghost predicate GoodPacket(shows: seq<Show>, owner: map<u16, nat>, p: Packet) {
    && p.show < |shows|
    && match p.body
       case BeginShow(key) => key == shows[p.show].key
       case Title(text) => text == CutText(shows[p.show].title)
       case Artist(text) => text == CutText(shows[p.show].artist)
       case CommitShow(key) => key == shows[p.show].key
       case Cover(m) => GoodUrl(shows, owner, m.id, p.show) && GoodMsg(shows[p.show].cover, m)
  }

  ghost predicate GoodMsg(url: Url, m: Msg) {
    match m
    case Begin(_, total) => total == |url|
    case Chunk(_, offset, data) => offset + |data| <= |url| && data == url[offset..offset + |data|]
    case End(_) => true
    case Ack(_, _) => false
  }

  ghost predicate GoodWire(s: Sys) {
    forall p :: p in s.wire ==> GoodPacket(s.shows, s.owner, p)
  }

  ghost predicate InOrder(wire: seq<Packet>, seen: nat) {
    && (forall p :: p in wire ==> seen <= p.show)
    && forall i, j :: 0 <= i < j < |wire| ==> wire[i].show <= wire[j].show
  }

  ghost predicate GoodReceiver(shows: seq<Show>, owner: map<u16, nat>, r: Receiver) {
    r.active ==>
      && r.id in owner && owner[r.id] < |shows|
      && r.total == |shows[owner[r.id]].cover| && r.url <= shows[owner[r.id]].cover
  }

  ghost predicate GoodSender(s: Sys) {
    && s.sender.Valid()
    && (s.shows == [] ==> s.sender.phase == Idle && !s.sender.waiting)
    && (s.shows != [] ==>
          && GoodUrl(s.shows, s.owner, s.sender.id, |s.shows| - 1)
          && s.sender.url == s.shows[|s.shows| - 1].cover)
  }

  ghost predicate GoodAnswer(shows: seq<Show>, owner: map<u16, nat>, a: Answer) {
    && a.ack.Ack?
    && (a.ack.result == 0 ==>
          && a.ack.id in owner && owner[a.ack.id] < |shows|
          && a.taken == Some(shows[owner[a.ack.id]].cover))
  }

  ghost predicate GoodUp(s: Sys) {
    forall a :: a in s.up ==> GoodAnswer(s.shows, s.owner, a)
  }

  /** Some presentation from `low` to `high` has this title, artist or cover. */
  ghost predicate FromTitle(shows: seq<Show>, low: nat, high: nat, text: seq<byte>) {
    exists i :: low <= i <= high && i < |shows| && text == CutText(shows[i].title)
  }

  ghost predicate FromArtist(shows: seq<Show>, low: nat, high: nat, text: seq<byte>) {
    exists i :: low <= i <= high && i < |shows| && text == CutText(shows[i].artist)
  }

  ghost predicate FromCover(shows: seq<Show>, low: nat, high: nat, url: Url) {
    exists i :: low <= i <= high && i < |shows| && url == shows[i].cover
  }

  ghost predicate GoodStage(s: Sys) {
    s.stage.pending ==>
      && s.begun <= s.seen && s.begun < |s.shows| && s.stage.key == s.shows[s.begun].key
      && (TitlePart in s.stage.parts ==> FromTitle(s.shows, s.begun, s.seen, s.stage.staged.title))
      && (ArtistPart in s.stage.parts ==> FromArtist(s.shows, s.begun, s.seen, s.stage.staged.artist))
      && (CoverPart in s.stage.parts ==> FromCover(s.shows, s.begun, s.seen, s.stage.staged.cover))
  }

  ghost predicate GoodCommitted(s: Sys) {
    s.committed.Some? ==>
      s.committed.value <= s.seen && s.committed.value < |s.shows| && s.stage.last == s.shows[s.committed.value].key
  }

  ghost predicate Safe(s: Sys) {
    && Blocks(s.shows) && GoodWire(s) && InOrder(s.wire, s.seen) && (s.seen == 0 || s.seen < |s.shows|)
    && GoodReceiver(s.shows, s.owner, s.receiver) && GoodSender(s) && GoodUp(s) && GoodStage(s) && GoodCommitted(s)
  }

  // ---------------------------------------------------------- step by step

  lemma PresentKeepsBlocks(shows: seq<Show>, show: Show)
    requires Blocks(shows) && Numbered(shows, show)
    ensures Blocks(shows + [show])
  {
    var more, n := shows + [show], |shows|;
    forall i, j, k | 0 <= i <= j <= k < |more| && more[i].key == more[k].key ensures more[j] == more[i] {
      if k == n && i < n {
        assert more[i] == shows[i];
        assert shows[n - 1] == show;
        if j < n {
          assert shows[j] == shows[i];
        }
        assert shows[n - 1] == shows[i];
      }
    }
  }

  /** What was said of the presentations so far stands when one more is queued. */
  lemma PacketsStayGood(s: Sys, show: Show)
    requires GoodWire(s) && NoTrace(s, s.sender.NextId())
    ensures forall p :: p in s.wire ==>
              GoodPacket(s.shows + [show], s.owner[s.sender.NextId() := |s.shows|], p)
  {
    forall p | p in s.wire ensures GoodPacket(s.shows + [show], s.owner[s.sender.NextId() := |s.shows|], p) {
      assert GoodPacket(s.shows, s.owner, p);
    }
  }

  lemma AnswersStayGood(s: Sys, show: Show)
    requires GoodUp(s) && NoTrace(s, s.sender.NextId())
    ensures forall a :: a in s.up ==> GoodAnswer(s.shows + [show], s.owner[s.sender.NextId() := |s.shows|], a)
  {
    forall a | a in s.up ensures GoodAnswer(s.shows + [show], s.owner[s.sender.NextId() := |s.shows|], a) {
      assert GoodAnswer(s.shows, s.owner, a);
    }
  }

  lemma StageStaysGood(s: Sys, show: Show)
    requires GoodStage(s)
    ensures GoodStage(s.(shows := s.shows + [show]))
  {
    var t := s.(shows := s.shows + [show]);
    if s.stage.pending {
      if TitlePart in s.stage.parts {
        var i :| s.begun <= i <= s.seen && i < |s.shows| && s.stage.staged.title == CutText(s.shows[i].title);
        assert t.shows[i] == s.shows[i];
      }
      if ArtistPart in s.stage.parts {
        var i :| s.begun <= i <= s.seen && i < |s.shows| && s.stage.staged.artist == CutText(s.shows[i].artist);
        assert t.shows[i] == s.shows[i];
      }
      if CoverPart in s.stage.parts {
        var i :| s.begun <= i <= s.seen && i < |s.shows| && s.stage.staged.cover == s.shows[i].cover;
        assert t.shows[i] == s.shows[i];
      }
    }
  }

  /** Frames of the latest presentation go to the end of the wire. */
  lemma SendKeepsOrder(wire: seq<Packet>, seen: nat, more: seq<Packet>, n: nat)
    requires InOrder(wire, seen) && seen <= n && (forall p :: p in wire ==> p.show <= n)
    requires forall p :: p in more ==> p.show == n
    ensures InOrder(wire + more, seen)
  {
    var after := wire + more;
    forall i, j | 0 <= i < j < |after| ensures after[i].show <= after[j].show {
      if j < |wire| {
        assert wire[i].show <= wire[j].show;
      } else {
        assert after[j] == more[j - |wire|] && after[i] in after;
      }
    }
  }

  /** The three frames queue_bridge_media_presentation sends at once. */
  lemma PresentKeepsWire(s: Sys, t: Sys, show: Show)
    requires GoodWire(s) && InOrder(s.wire, s.seen) && (s.seen == 0 || s.seen < |s.shows|)
    requires NoTrace(s, s.sender.NextId()) && t == Presented(s, show)
    ensures GoodWire(t) && InOrder(t.wire, t.seen)
  {
    var n := |s.shows|;
    var more := [Packet(n, BeginShow(show.key)), Packet(n, Title(CutText(show.title))),
                 Packet(n, Artist(CutText(show.artist)))];
    PacketsStayGood(s, show);
    forall p | p in more ensures p.show == n && GoodPacket(t.shows, t.owner, p) {
    }
    assert forall p :: p in s.wire ==> GoodPacket(s.shows, s.owner, p);
    SendKeepsOrder(s.wire, s.seen, more, n);
    assert t.wire == s.wire + more;
  }

  /** One more frame of the latest presentation. */
  lemma SendKeepsWire(s: Sys, p: Packet)
    requires GoodWire(s) && InOrder(s.wire, s.seen) && (s.seen == 0 || s.seen < |s.shows|)
    requires GoodPacket(s.shows, s.owner, p) && p.show == |s.shows| - 1
    ensures GoodWire(s.(wire := s.wire + [p])) && InOrder(s.wire + [p], s.seen)
  {
    assert forall q :: q in s.wire ==> GoodPacket(s.shows, s.owner, q);
    SendKeepsOrder(s.wire, s.seen, [p], p.show);
  }

  lemma PresentIsSafe(s: Sys, show: Show)
    requires Safe(s) && Enabled(s, Present(show))
    ensures Safe(Presented(s, show))
  {
    var t := Presented(s, show);
    PresentKeepsBlocks(s.shows, show);
    PresentKeepsWire(s, t, show);
    AnswersStayGood(s, show);
    StageStaysGood(s, show);
    assert GoodStage(t);
    assert GoodReceiver(t.shows, t.owner, t.receiver);
  }

  lemma SenderPolled(s: Sys, linkUp: bool)
    requires GoodSender(s)
    ensures GoodSender(Polled(s, linkUp))
    ensures var msg := s.sender.Poll(linkUp).1;
            msg.Some? ==> s.shows != [] && GoodPacket(s.shows, s.owner, Packet(|s.shows| - 1, Cover(msg.value)))
  {
  }

  lemma PollIsSafe(s: Sys, linkUp: bool)
    requires Safe(s)
    ensures Safe(Polled(s, linkUp))
  {
    SenderPolled(s, linkUp);
    var (sender, msg) := s.sender.Poll(linkUp);
    if msg.Some? {
      SendKeepsWire(s, Packet(|s.shows| - 1, Cover(msg.value)));
    }
  }

  lemma AcceptIsSafe(s: Sys, ack: Msg)
    requires Safe(s) && ack.Ack?
    ensures Safe(Accepted(s, ack))
  {
    var t := Accepted(s, ack);
    if t.wire != s.wire {
      var n := |s.shows| - 1;
      SendKeepsWire(s, Packet(n, CommitShow(s.shows[n].key)));
      assert GoodWire(t) && InOrder(t.wire, t.seen);
    }
  }

  lemma LoseIsSafe(s: Sys, at: nat)
    requires Safe(s) && at < |s.wire|
    ensures Safe(s.(wire := s.wire[..at] + s.wire[at + 1..]))
  {
    var t := s.(wire := s.wire[..at] + s.wire[at + 1..]);
    assert forall p :: p in t.wire ==> p in s.wire;
    assert forall p :: p in s.wire ==> GoodPacket(s.shows, s.owner, p);
  }

  // Delivering the head of the wire: first what does not depend on its kind.

  lemma PoppedInOrder(s: Sys)
    requires Safe(s) && s.wire != []
    ensures var t := s.(wire := s.wire[1..], seen := s.wire[0].show);
            GoodWire(t) && InOrder(t.wire, t.seen) && GoodStage(t) && GoodCommitted(t)
  {
    var t := s.(wire := s.wire[1..], seen := s.wire[0].show);
    assert s.wire[0] in s.wire && GoodPacket(s.shows, s.owner, s.wire[0]);
    assert forall p :: p in t.wire ==> p in s.wire;
    forall p | p in t.wire ensures t.seen <= p.show {
      var j :| 0 <= j < |t.wire| && t.wire[j] == p;
      assert s.wire[j + 1] == p;
    }
  }

  lemma BegunStage(s: Sys, n: nat, key: Key)
    requires GoodStage(s) && GoodCommitted(s) && s.seen == n < |s.shows| && key == s.shows[n].key
    ensures var t := s.(stage := s.stage.Begin(key), begun := if s.stage.atomic then n else s.begun);
            GoodStage(t) && GoodCommitted(t)
  {
  }

  lemma CommittedStage(s: Sys, n: nat, key: Key)
    requires GoodStage(s) && GoodCommitted(s) && s.seen == n < |s.shows| && key == s.shows[n].key
    ensures var t := s.(stage := s.stage.Commit(key),
                        committed := if s.stage.Commits(key) then Some(n) else s.committed);
            GoodStage(t) && GoodCommitted(t)
  {
  }

  lemma StagedTitle(s: Sys, n: nat, text: seq<byte>)
    requires GoodStage(s) && s.seen == n < |s.shows| && text == CutText(s.shows[n].title)
    ensures GoodStage(s.(stage := s.stage.Title(text)))
  {
    if s.stage.pending {
      assert FromTitle(s.shows, s.begun, s.seen, text);
    }
  }

  lemma StagedArtist(s: Sys, n: nat, text: seq<byte>)
    requires GoodStage(s) && s.seen == n < |s.shows| && text == CutText(s.shows[n].artist)
    ensures GoodStage(s.(stage := s.stage.Artist(text)))
  {
    if s.stage.pending {
      assert FromArtist(s.shows, s.begun, s.seen, text);
    }
  }

  lemma StagedCover(s: Sys, n: nat, url: Url)
    requires GoodStage(s) && s.seen == n < |s.shows| && url == s.shows[n].cover
    ensures GoodStage(s.(stage := s.stage.Cover(url)))
  {
    if s.stage.pending {
      assert FromCover(s.shows, s.begun, s.seen, url);
    }
  }

  /** The receiver keeps a prefix of the URL queued under its id, and completes with
      nothing but that URL. */
  lemma CoverIsSafe(shows: seq<Show>, owner: map<u16, nat>, r: Receiver, m: Msg, n: nat)
    requires GoodReceiver(shows, owner, r)
    requires GoodUrl(shows, owner, m.id, n) && GoodMsg(shows[n].cover, m)
    ensures var (after, url, ack) := r.Receive(m);
            && GoodReceiver(shows, owner, after)
            && (url.Some? ==> url.value == shows[n].cover)
            && (ack.Some? ==> GoodAnswer(shows, owner, Answer(ack.value, url)))
  {
    var cover := shows[n].cover;
    if m.Chunk? && r.active && m.id == r.id && m.offset == |r.url| {
      assert r.url == cover[..m.offset];
      assert r.url + m.data == cover[..m.offset + |m.data|];
    }
    if m.End? && r.active && m.id == r.id && |r.url| == r.total {
      assert r.url == cover[..|cover|];
    }
  }

  lemma CoverDeliveredIsSafe(s: Sys, t: Sys, p: Packet)
    requires Safe(s) && s.wire != [] && p == s.wire[0] && p.body.Cover?
    requires t == s.(wire := s.wire[1..], seen := p.show)
    ensures Safe(CoverDelivered(t, p.body.msg))
  {
    PoppedInOrder(s);
    assert GoodPacket(s.shows, s.owner, p);
    CoverIsSafe(s.shows, s.owner, s.receiver, p.body.msg, p.show);
    var (receiver, url, ack) := s.receiver.Receive(p.body.msg);
    if url.Some? {
      StagedCover(t, p.show, url.value);
    }
    assert forall a :: a in s.up ==> GoodAnswer(s.shows, s.owner, a);
  }

  /** The texts and the two that bracket them touch only the stage. */
  lemma StageDelivered(s: Sys, t: Sys, p: Packet)
    requires Safe(s) && s.wire != [] && p == s.wire[0] && !p.body.Cover?
    requires t == s.(wire := s.wire[1..], seen := p.show) && GoodPacket(s.shows, s.owner, p)
    requires GoodStage(t) && GoodCommitted(t)
    ensures var u := Delivered(s);
            && GoodStage(u) && GoodCommitted(u)
            && u == t.(stage := u.stage, begun := u.begun, committed := u.committed)
  {
    match p.body {
      case BeginShow(key) => BegunStage(t, p.show, key);
      case Title(text) => StagedTitle(t, p.show, text);
      case Artist(text) => StagedArtist(t, p.show, text);
      case CommitShow(key) => CommittedStage(t, p.show, key);
    }
  }

  lemma DeliverIsSafe(s: Sys)
    requires Safe(s) && s.wire != []
    ensures Safe(Delivered(s))
  {
    var p := s.wire[0];
    var t := s.(wire := s.wire[1..], seen := p.show);
    PoppedInOrder(s);
    assert p in s.wire && GoodPacket(s.shows, s.owner, p);
    if p.body.Cover? {
      CoverDeliveredIsSafe(s, t, p);
    } else {
      StageDelivered(s, t, p);
    }
  }

  /** The S3 learns whether the bridge is there and what it can do. */
  lemma StageAside(s: Sys, stage: Stage)
    requires Safe(s) && stage.last == s.stage.last && (stage.pending ==> stage == s.stage.(atomic := stage.atomic,
                                                                                            ready := stage.ready))
    ensures Safe(s.(stage := stage))
  {
  }

  lemma LoseAnswersIsSafe(s: Sys, answers: set<Answer>)
    requires Safe(s)
    ensures Safe(s.(up := s.up - answers))
  {
  }

  lemma ApplyIsSafe(s: Sys, a: Action)
    requires Safe(s) && Enabled(s, a)
    ensures Safe(Apply(s, a))
  {
    match a {
      case Present(show) => PresentIsSafe(s, show);
      case Poll(linkUp) => PollIsSafe(s, linkUp);
      case Accept(answer) => AcceptIsSafe(s, answer.ack);
      case Deliver => DeliverIsSafe(s);
      case Lose(at) => LoseIsSafe(s, at);
      case BridgeStatus(up, atomic) => StageAside(s, s.stage.BridgeStatus(up, atomic));
      case LinkDown => StageAside(s, s.stage.LinkDown());
      case LoseAnswers(answers) => LoseAnswersIsSafe(s, answers);
    }
  }

  // --------------------------------------------------------------- whole runs

  ghost predicate Step(s: Sys, a: Action, t: Sys) {
    s.sender.Valid() && Enabled(s, a) && t == Apply(s, a)
  }

  ghost predicate Run(states: seq<Sys>, acts: seq<Action>) {
    && |states| == |acts| + 1 && Initial(states[0])
    && forall i :: 0 <= i < |acts| ==> Step(states[i], acts[i], states[i + 1])
  }

  lemma {:induction false} Reachable(states: seq<Sys>, acts: seq<Action>, i: nat)
    requires Run(states, acts) && i < |states|
    ensures Safe(states[i])
  {
    if i > 0 {
      Reachable(states, acts, i - 1);
      assert Step(states[i - 1], acts[i - 1], states[i]);
      ApplyIsSafe(states[i - 1], acts[i - 1]);
    }
  }

  /** Whatever is lost or queued in between: a completed URL is the one queued under the
      transfer id of the END that completed it. */
  lemma CompletedUrlIsQueued(states: seq<Sys>, acts: seq<Action>, i: nat, msg: Msg)
    requires Run(states, acts) && i < |acts| && acts[i] == Deliver
    requires states[i].wire != [] && states[i].wire[0].body == Cover(msg)
    ensures var s := states[i];
            var url := s.receiver.Receive(msg).1;
            url.Some? ==> msg.id in s.owner && s.owner[msg.id] < |s.shows|
                          && url.value == s.shows[s.owner[msg.id]].cover
  {
    Reachable(states, acts, i);
    var s := states[i];
    assert s.wire[0] in s.wire && GoodPacket(s.shows, s.owner, s.wire[0]);
    CoverIsSafe(s.shows, s.owner, s.receiver, msg, s.wire[0].show);
  }

  /** A good answer the bridge accepts was sent when the S3 had taken over the cover of
      the latest presentation, and the COMMIT that follows names that presentation. */
  lemma AcceptedAckIsLatest(states: seq<Sys>, acts: seq<Action>, i: nat)
    requires Run(states, acts) && i < |acts| && acts[i].Accept? && acts[i].answer.ack.Ack?
    requires states[i].sender.Acknowledge(acts[i].answer.ack).1 == Some(0)
    ensures var s, n := states[i], |states[i].shows| - 1;
            && n >= 0 && acts[i].answer.taken == Some(s.shows[n].cover)
            && states[i + 1].wire == s.wire + [Packet(n, CommitShow(s.shows[n].key))]
  {
    Reachable(states, acts, i);
    assert Step(states[i], acts[i], states[i + 1]);
    assert GoodAnswer(states[i].shows, states[i].owner, acts[i].answer);
  }

  /** Three parts from presentations up to the one the number stands for are its own. */
  lemma OnePresentation(s: Sys, n: nat)
    requires Blocks(s.shows) && GoodStage(s) && s.stage.pending
    requires s.stage.parts == {TitlePart, ArtistPart, CoverPart}
    requires s.begun <= n == s.seen < |s.shows| && s.stage.key == s.shows[n].key
    ensures s.stage.staged == Shown(s.shows[n])
  {
    var b := s.begun;
    assert s.shows[b].key == s.shows[n].key && s.shows[n] == s.shows[b];
    var i :| b <= i <= n && i < |s.shows| && s.stage.staged.title == CutText(s.shows[i].title);
    var j :| b <= j <= n && j < |s.shows| && s.stage.staged.artist == CutText(s.shows[j].artist);
    var k :| b <= k <= n && k < |s.shows| && s.stage.staged.cover == s.shows[k].cover;
    assert s.shows[i] == s.shows[b] && s.shows[j] == s.shows[b] && s.shows[k] == s.shows[b];
  }

  ghost predicate CommitTaken(s: Sys, a: Action) {
    a == Deliver && s.wire != [] && s.wire[0].body.CommitShow? && s.stage.Commits(s.wire[0].body.key)
  }

  /** A COMMIT taken up shows title, artist and cover of the one presentation it was
      sent for, whatever frames were lost and whatever was queued meanwhile. */
  lemma CommitShowsOnePresentation(states: seq<Sys>, acts: seq<Action>, i: nat)
    requires Run(states, acts) && i < |acts| && CommitTaken(states[i], acts[i])
    ensures var n := states[i].wire[0].show;
            && n < |states[i].shows| && states[i + 1].committed == Some(n)
            && states[i + 1].stage.display == Shown(states[i].shows[n])
  {
    Reachable(states, acts, i);
    var s := states[i];
    assert Step(s, acts[i], states[i + 1]);
    PoppedInOrder(s);
    assert s.wire[0] in s.wire && GoodPacket(s.shows, s.owner, s.wire[0]);
    OnePresentation(s.(wire := s.wire[1..], seen := s.wire[0].show), s.wire[0].show);
  }

  /** A presentation never replaces one queued after it. */
  lemma CommitsAdvance(states: seq<Sys>, acts: seq<Action>, i: nat)
    requires Run(states, acts) && i < |acts| && CommitTaken(states[i], acts[i])
    ensures states[i].committed.Some? ==> states[i].committed.value < states[i].wire[0].show
  {
    Reachable(states, acts, i);
    var s := states[i];
    assert s.wire[0] in s.wire && GoodPacket(s.shows, s.owner, s.wire[0]);
    assert !Newer(s.stage.last, s.stage.last);
  }

  // ------------------------------------------- when the display stays in one piece

  /** This step hands a text or a completed URL to an S3 that is not staging. */
  ghost predicate WritesThrough(s: Sys, a: Action) {
    && a == Deliver && s.wire != [] && !s.stage.Staging()
    && match s.wire[0].body
       case Title(_) => s.stage.ready
       case Artist(_) => s.stage.ready
       case Cover(msg) => s.receiver.Receive(msg).1.Some?
       case _ => false
  }

  ghost predicate Whole(s: Sys, first: Display) {
    if s.committed.None? then s.stage.display == first
    else s.committed.value < |s.shows| && s.stage.display == Shown(s.shows[s.committed.value])
  }

  lemma CommitKeepsShows(s: Sys, a: Action)
    requires s.sender.Valid() && Enabled(s, a) && CommitTaken(s, a)
    ensures Apply(s, a).shows == s.shows
  {
  }

  lemma ElseStaysWhole(s: Sys, a: Action, first: Display)
    requires s.sender.Valid() && Enabled(s, a) && !CommitTaken(s, a) && !WritesThrough(s, a) && Whole(s, first)
    ensures Whole(Apply(s, a), first)
  {
    OnlyWritesThroughTear(s, a);
    KeepsCommitted(s, a);
  }

  lemma KeepsCommitted(s: Sys, a: Action)
    requires s.sender.Valid() && Enabled(s, a) && !CommitTaken(s, a)
    ensures Apply(s, a).committed == s.committed && s.shows <= Apply(s, a).shows
  {
  }

  lemma StaysWhole(states: seq<Sys>, acts: seq<Action>, i: nat, first: Display)
    requires Run(states, acts) && i < |acts| && Whole(states[i], first)
    requires !WritesThrough(states[i], acts[i])
    ensures Whole(states[i + 1], first)
  {
    assert Step(states[i], acts[i], states[i + 1]);
    if CommitTaken(states[i], acts[i]) {
      CommitShowsOnePresentation(states, acts, i);
      CommitKeepsShows(states[i], acts[i]);
    } else {
      ElseStaysWhole(states[i], acts[i], first);
    }
  }

  /** As long as every text and every completed URL finds the S3 staging, the display
      shows one presentation, the last committed, in all its parts. */
  lemma {:induction false} DisplayIsOnePresentation(states: seq<Sys>, acts: seq<Action>, i: nat)
    requires Run(states, acts) && i < |states|
    requires forall k :: 0 <= k < i ==> !WritesThrough(states[k], acts[k])
    ensures Whole(states[i], states[0].stage.display)
  {
    if i > 0 {
      DisplayIsOnePresentation(states, acts, i - 1);
      StaysWhole(states, acts, i - 1, states[0].stage.display);
    }
  }

  /** Exactly then: what a step outside a commit puts on the display is a text or URL
      that found no staging, if it differs from what was there. */
  lemma OnlyWritesThroughTear(s: Sys, a: Action)
    requires s.sender.Valid() && Enabled(s, a) && !CommitTaken(s, a)
    ensures Apply(s, a).stage.display != s.stage.display ==> WritesThrough(s, a)
    ensures WritesThrough(s, a) ==>
              (Apply(s, a).stage.display == s.stage.display <==>
               match s.wire[0].body
               case Title(text) => text == s.stage.display.title
               case Artist(text) => text == s.stage.display.artist
               case Cover(msg) => s.receiver.Receive(msg).1.value == s.stage.display.cover
               case _ => true)
  {
  }

  /** And it happens: when the frame that begins a presentation is lost, an S3 that
      knows the bridge presents atomically still shows the new title over the old rest,
      with nothing committed. */
  lemma LostBeginTearsDisplay(s0: Sys, show: Show) returns (states: seq<Sys>, acts: seq<Action>)
    requires Initial(s0) && show.title == [65] && s0.stage.display.title == []
    ensures Run(states, acts) && |states| == 5 && states[0] == s0
    ensures var s := states[4];
            s.stage.atomic && s.committed == None && s.stage.display == s0.stage.display.(title := [65])
  {
    var s1 := Apply(s0, BridgeStatus(true, true));
    var s2 := Apply(s1, Present(show));
    var s3, s4 := BeginLost(s2, show);
    states, acts := [s0, s1, s2, s3, s4], [BridgeStatus(true, true), Present(show), Lose(0), Deliver];
    assert Step(s0, acts[0], s1) && Step(s1, acts[1], s2) && Step(s2, acts[2], s3) && Step(s3, acts[3], s4);
  }

  lemma BeginLost(s: Sys, show: Show) returns (t: Sys, u: Sys)
    requires s.sender.Valid() && show.title == [65] && s.stage.ready && !s.stage.Staging()
    requires |s.wire| == 3 && s.wire[1].body == Title(CutText(show.title))
    ensures Step(s, Lose(0), t) && Step(t, Deliver, u)
    ensures u.stage == s.stage.(display := s.stage.display.(title := [65])) && u.committed == s.committed
  {
    t := Apply(s, Lose(0));
    assert t.wire[0] == s.wire[1] && CutText(show.title) == [65];
    u := Apply(t, Deliver);
  }

  // --------------------------------------------------- when nothing is staged

  /** The link goes, the bridge's ability changes, or a presentation is committed. */
  ghost predicate Clears(s: Sys, a: Action) {
    || a == LinkDown || CommitTaken(s, a)
    || (a.BridgeStatus? && s.stage.atomic != (a.up && a.atomic))
  }

  lemma ClearsStage(s: Sys, a: Action, t: Sys)
    requires Step(s, a, t) && Clears(s, a)
    ensures !t.stage.pending && t.stage.parts == {}
  {
  }

  ghost predicate Begins(s: Sys, a: Action) {
    a == Deliver && s.wire != [] && s.wire[0].body.BeginShow?
  }

  lemma StaysClear(s: Sys, a: Action, t: Sys)
    requires Step(s, a, t) && !Begins(s, a) && !s.stage.pending
    ensures !t.stage.pending && !CommitTaken(s, a)
  {
  }

  /** After that nothing is staged until a presentation begins, so no COMMIT is taken up: not
      one repeated, nor one whose BEGIN came over the link that was lost. */
  lemma {:induction false} NothingCommittedUntilBegun(states: seq<Sys>, acts: seq<Action>, i: nat, j: nat)
    requires Run(states, acts) && i < j < |acts| && Clears(states[i], acts[i])
    requires forall k :: i < k < j ==> !Begins(states[k], acts[k])
    ensures !states[j].stage.pending && !CommitTaken(states[j], acts[j])
    decreases j
  {
    if i + 1 < j {
      NothingCommittedUntilBegun(states, acts, i, j - 1);
      assert Step(states[j - 1], acts[j - 1], states[j - 1 + 1]);
      StaysClear(states[j - 1], acts[j - 1], states[j - 1 + 1]);
    } else {
      assert Step(states[i], acts[i], states[i + 1]);
      ClearsStage(states[i], acts[i], states[i + 1]);
    }
  }

  /** A status of the bridge keeps what is staged exactly if its ability is what it was. */
  lemma StatusKeepsIff(stage: Stage, up: bool, atomicMedia: bool)
    ensures var t := stage.BridgeStatus(up, atomicMedia);
            && t.ready == up && t.atomic == (up && atomicMedia) && t.display == stage.display && t.last == stage.last
            && (t.pending <==> stage.pending && stage.atomic == (up && atomicMedia))
            && (t.pending ==> t.key == stage.key && t.staged == stage.staged && t.parts == stage.parts)
  {
  }

  /** From the loss of the link until the next status of the bridge title and artist are
      ignored. */
  lemma {:induction false} TextsNeedLink(states: seq<Sys>, acts: seq<Action>, i: nat, j: nat, text: seq<byte>)
    requires Run(states, acts) && i < j < |states| && acts[i] == LinkDown
    requires forall k :: i < k < j ==> !acts[k].BridgeStatus?
    ensures var s := states[j].stage; !s.ready && !s.atomic && s.Title(text) == s && s.Artist(text) == s
    decreases j
  {
    assert Step(states[j - 1], acts[j - 1], states[j - 1 + 1]);
    if i + 1 < j {
      TextsNeedLink(states, acts, i, j - 1, text);
    }
  }

  // ------------------------------------------------- what happens if nothing is lost

  /** The next frame delivered, if there is one. */
  function Taken(s: Sys): Sys {
    if s.wire == [] then s else Delivered(s)
  }

  /** One poll, and its frame delivered at once. */
  ghost function Exchanged(s: Sys): Sys {
    if s.sender.Valid() then Taken(Polled(s, true)) else s
  }

  ghost function Exchanges(s: Sys, n: nat): Sys
    decreases n
  {
    if n == 0 then s else Exchanges(Exchanged(s), n - 1)
  }

  /** Title and artist are staged, and the S3 holds what was sent of the URL. */
  ghost predicate Crossing(s: Sys, show: Show) {
    && s.wire == [] && s.shows != [] && s.shows[|s.shows| - 1] == show
    && s.sender.Valid() && s.sender.url == show.cover && (s.sender.phase == Sending || s.sender.phase == Ending)
    && s.receiver == Receiver(show.cover[..s.sender.offset], s.sender.id, |show.cover|, true)
    && s.stage.Staging() && s.stage.key == show.key && Newer(show.key, s.stage.last)
    && s.stage.staged.title == CutText(show.title) && s.stage.staged.artist == CutText(show.artist)
    && s.stage.parts == {TitlePart, ArtistPart}
  }

  /** Everything is staged, and a good answer is under way. */
  ghost predicate Crossed(s: Sys, show: Show) {
    && s.wire == [] && s.shows != [] && s.shows[|s.shows| - 1] == show && s.sender.waiting
    && Answer(Ack(s.sender.id, 0), Some(show.cover)) in s.up
    && s.stage.Commits(show.key) && s.stage.staged == Shown(show)
  }

  lemma PieceCrosses(s: Sys, show: Show)
    requires Crossing(s, show) && s.sender.phase == Sending
    ensures var t := Exchanged(s);
            Crossing(t, show) && t.sender.offset > s.sender.offset && t.sender.url == s.sender.url
  {
    var o, n, cover := s.sender.offset, s.sender.PieceLength(), show.cover;
    var p := Packet(|s.shows| - 1, Cover(s.sender.Current()));
    assert Polled(s, true).wire == [p];
    assert cover[..o] + cover[o..o + n] == cover[..o + n];
  }

  lemma EndCrosses(s: Sys, show: Show)
    requires Crossing(s, show) && s.sender.phase == Ending
    ensures Crossed(Exchanged(s), show)
  {
    var p := Packet(|s.shows| - 1, Cover(s.sender.Current()));
    assert Polled(s, true).wire == [p];
    assert show.cover[..|show.cover|] == show.cover;
  }

  lemma {:induction false} UrlCrosses(s: Sys, show: Show) returns (n: nat)
    requires Crossing(s, show)
    ensures Crossed(Exchanges(s, n), show)
    decreases |s.sender.url| - s.sender.offset
  {
    if s.sender.phase == Ending {
      EndCrosses(s, show);
      assert Exchanges(Exchanged(s), 0) == Exchanged(s);
      n := 1;
    } else {
      PieceCrosses(s, show);
      n := UrlCrosses(Exchanged(s), show);
      n := n + 1;
    }
  }

  /** Its three control frames delivered. */
  ghost function Announced(s: Sys, show: Show): Sys {
    Taken(Taken(Taken(Presented(s, show))))
  }

  lemma AnnouncedCrosses(s: Sys, show: Show)
    requires s.wire == [] && s.stage.ready && s.stage.atomic && Newer(show.key, s.stage.last)
    ensures Crossing(Exchanged(Announced(s, show)), show)
  {
    var n := |s.shows|;
    var a, b, c := Packet(n, BeginShow(show.key)), Packet(n, Title(CutText(show.title))),
                   Packet(n, Artist(CutText(show.artist)));
    var t := Presented(s, show);
    assert t.wire == [a, b, c];
    var t1 := Delivered(t);
    assert t1.wire == [b, c];
    var t2 := Delivered(t1);
    assert t2.wire == [c];
    var t3 := Delivered(t2);
    assert t3.wire == [] && t3 == Announced(s, show);
    BeginCrosses(t3, show);
  }

  lemma BeginCrosses(t: Sys, show: Show)
    requires t.wire == [] && t.shows != [] && t.shows[|t.shows| - 1] == show
    requires t.sender == Sender(show.cover, t.sender.id, 0, Beginning, false)
    requires t.stage.Staging() && t.stage.key == show.key && Newer(show.key, t.stage.last)
    requires t.stage.staged.title == CutText(show.title) && t.stage.staged.artist == CutText(show.artist)
    requires t.stage.parts == {TitlePart, ArtistPart}
    ensures Crossing(Exchanged(t), show)
  {
    var p := Packet(|t.shows| - 1, Cover(t.sender.Current()));
    assert Polled(t, true).wire == [p];
  }

  lemma CrossedIsShown(t: Sys, show: Show)
    requires Crossed(t, show)
    ensures var u := Accepted(t, Ack(t.sender.id, 0));
            u.wire != [] && Delivered(u).stage.display == Shown(show) && Delivered(u).stage.last == show.key
  {
  }

  /** Whatever the S3 has staged or received of an earlier presentation: once nothing is
      under way, if nothing of a new one is lost, an S3 that is ready and knows the bridge
      presents atomically ends up showing it, title, artist and cover. The new one is of
      another session, or less than half the circle of numbers ahead, which may wrap. */
  lemma LosslessIsShown(s: Sys, show: Show, d: nat) returns (n: nat)
    requires s.wire == [] && s.stage.ready && s.stage.atomic
    requires show.key.session != s.stage.last.session
             || (0 < d < 0x8000_0000 && show.key.sequence == (s.stage.last.sequence + d) % 0x1_0000_0000)
    ensures var t := Exchanges(Exchanged(Announced(s, show)), n);
            && t.sender.waiting && Answer(Ack(t.sender.id, 0), Some(show.cover)) in t.up
            && var u := Accepted(t, Ack(t.sender.id, 0));
               u.wire != [] && Delivered(u).stage.display == Shown(show) && Delivered(u).stage.last == show.key
  {
    NewerIff(show.key.session, show.key.sequence, if d < 0x8000_0000 then d else 0, s.stage.last);
    AnnouncedCrosses(s, show);
    n := UrlCrosses(Exchanged(Announced(s, show)), show);
    CrossedIsShown(Exchanges(Exchanged(Announced(s, show)), n), show);
  }
}
