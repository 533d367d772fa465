// Messages across the wire: what one side prints and sends, the other side queues and reads.
module EndToEnd {
  import opened Bytes
  import opened Frames
  import opened Receiver
  import opened Wrappers
  import PriorityQueue
  import Library = LibraryMessages
  import Asset = AssetMessages
  import Cover = CoverUrl

  /** A receiver between two frames, with room in its queue. */
  ghost predicate Listening(t: Inbox) {
    Valid(t) && t.synchronized && t.pending == [] && |t.queue| < PriorityQueue.CAPACITY
  }

  lemma LibraryMessageCrosses(t: Inbox, m: Library.Msg, sequence: u16)
    requires Listening(t) && Library.Sendable(m)
    ensures |Library.Print(m)| <= MAX_PAYLOAD
    ensures var f := Frame(Library.Type(m), 0, sequence, Library.Print(m));
            OnBytes(t, Image(f)).queue == t.queue + [f] && Library.Read(f.kind, f.payload) == Some(m)
  {
    Library.ReadPrint(m);
    ImageIsDelivered(t, Frame(Library.Type(m), 0, sequence, Library.Print(m)));
  }

  lemma AssetMessageCrosses(t: Inbox, m: Asset.Msg, sequence: u16)
    requires Listening(t) && Asset.Sendable(m)
    ensures |Asset.Print(m)| <= MAX_PAYLOAD
    ensures var f := Frame(Asset.Type(m), 0, sequence, Asset.Print(m));
            OnBytes(t, Image(f)).queue == t.queue + [f] && Asset.Read(f.kind, f.payload) == Some(m)
  {
    Asset.ReadPrint(m);
    ImageIsDelivered(t, Frame(Asset.Type(m), 0, sequence, Asset.Print(m)));
  }

  lemma CoverMessageCrosses(t: Inbox, m: Cover.Msg, sequence: u16)
    requires Listening(t) && Cover.Sendable(m)
    ensures |Cover.Print(m)| <= MAX_PAYLOAD
    ensures var f := Frame(Cover.Type(m), 0, sequence, Cover.Print(m));
            OnBytes(t, Image(f)).queue == t.queue + [f] && Cover.Read(f.kind, f.payload) == Some(m)
  {
    Cover.ReadPrint(m);
    ImageIsDelivered(t, Frame(Cover.Type(m), 0, sequence, Cover.Print(m)));
  }

  /** The message types of the two bulk transfers and of their acknowledgements. */
  const BULK: set<byte> := {18, 19, 20, 22, 24, 25, 26, 28}

  const CATALOG: set<byte> := {LIBRARY_BEGIN, LIBRARY_CHUNK, LIBRARY_END}
  const IMAGE: set<byte> := {RADAR_BEGIN, RADAR_CHUNK, RADAR_END}
  const PRESENTATION: set<byte> := {MEDIA_PRESENTATION_BEGIN, MEDIA_PRESENTATION_COMMIT, MEDIA_TEXT,
                                    MEDIA_COVER_URL_BEGIN, MEDIA_COVER_URL_CHUNK, MEDIA_COVER_URL_END}

  lemma BulkIsNotControl(f: Frame)
    ensures IsControl(f) <==> f.kind !in BULK
  {
  }

  /** The frames of these types, in order. */
  function OfKinds(q: seq<Frame>, kinds: set<byte>): seq<Frame> {
    if q == [] then [] else (if q[0].kind in kinds then [q[0]] else []) + OfKinds(q[1..], kinds)
  }

  lemma OfKindsCons(f: Frame, rest: seq<Frame>, q: seq<Frame>, kinds: set<byte>)
    requires q == [f] + rest
    ensures OfKinds(q, kinds) == (if f.kind in kinds then [f] else []) + OfKinds(rest, kinds)
  {
    assert q[1..] == rest;
  }

  lemma {:induction false} OfKindsConcat(a: seq<Frame>, b: seq<Frame>, kinds: set<byte>)
    ensures OfKinds(a + b, kinds) == OfKinds(a, kinds) + OfKinds(b, kinds)
    decreases a
  {
    if a == [] {
      assert a + b == b;
    } else {
      var f, rest := a[0], a[1..];
      OfKindsConcat(rest, b, kinds);
      OfKindsCons(f, rest, a, kinds);
      OfKindsCons(f, rest + b, a + b, kinds);
    }
  }

  /** All of one class: either bulk, or none of it. */
  predicate OneClass(kinds: set<byte>, control: bool) {
    if control then kinds !! BULK else kinds <= BULK
  }

  lemma OneOfKinds(f: Frame, head: seq<Frame>, kinds: set<byte>, control: bool)
    requires OneClass(kinds, control) && head == if IsControl(f) == control then [f] else []
    ensures OfKinds(head, kinds) == if f.kind in kinds then [f] else []
  {
    BulkIsNotControl(f);
    assert head == [f] ==> head[1..] == [];
  }

  lemma {:induction false} OfKindsOfClass(q: seq<Frame>, kinds: set<byte>, control: bool)
    requires OneClass(kinds, control)
    ensures OfKinds(PriorityQueue.OfClass(q, control), kinds) == OfKinds(q, kinds)
    decreases q
  {
    if q != [] {
      OfKindsOfClass(q[1..], kinds, control);
      var head, rest := if IsControl(q[0]) == control then [q[0]] else [], PriorityQueue.OfClass(q[1..], control);
      assert PriorityQueue.OfClass(q, control) == head + rest;
      OfKindsConcat(head, rest, kinds);
      OneOfKinds(q[0], head, kinds, control);
    }
  }

  /** Frames of types that are all bulk, or none of them, pass the receiver's queue in order
      among themselves, whatever else overtakes or is overtaken. */
  lemma KindsStayInOrder(events: seq<PriorityQueue.Event>, kinds: set<byte>, control: bool)
    requires OneClass(kinds, control)
    ensures var s := PriorityQueue.Run(PriorityQueue.State([], [], []), events);
            OfKinds(s.accepted, kinds) == OfKinds(s.delivered, kinds) + OfKinds(s.queue, kinds)
  {
    var s := PriorityQueue.Run(PriorityQueue.State([], [], []), events);
    PriorityQueue.EachClassIsFifo(events, control);
    OfKindsOfClass(s.accepted, kinds, control);
    OfKindsOfClass(s.delivered, kinds, control);
    OfKindsOfClass(s.queue, kinds, control);
    OfKindsConcat(PriorityQueue.OfClass(s.delivered, control), PriorityQueue.OfClass(s.queue, control), kinds);
  }

  /** So the order the presentation protocol relies on is kept, and that within each of the
      two bulk transfers. */
  lemma TransfersStayInOrder(events: seq<PriorityQueue.Event>)
    ensures var s := PriorityQueue.Run(PriorityQueue.State([], [], []), events);
            && OfKinds(s.accepted, PRESENTATION) == OfKinds(s.delivered, PRESENTATION) + OfKinds(s.queue, PRESENTATION)
            && OfKinds(s.accepted, CATALOG) == OfKinds(s.delivered, CATALOG) + OfKinds(s.queue, CATALOG)
            && OfKinds(s.accepted, IMAGE) == OfKinds(s.delivered, IMAGE) + OfKinds(s.queue, IMAGE)
  {
    KindsStayInOrder(events, PRESENTATION, true);
    KindsStayInOrder(events, CATALOG, false);
    KindsStayInOrder(events, IMAGE, false);
  }

  lemma {:induction false} FirstBehindBulk(bulk: seq<Frame>, f: Frame, rest: seq<Frame>)
    requires (forall b :: b in bulk ==> b.kind in BULK) && f.kind !in BULK
    ensures PriorityQueue.FirstControl(bulk + [f] + rest) == |bulk|
    decreases bulk
  {
    var q := bulk + [f] + rest;
    if bulk == [] {
      BulkIsNotControl(f);
      assert q[0] == f;
    } else {
      BulkIsNotControl(bulk[0]);
      assert q[0] == bulk[0] && q[1..] == bulk[1..] + [f] + rest;
      FirstBehindBulk(bulk[1..], f, rest);
    }
  }

  /** A frame of any other type, a turn of the encoder or a volume, say, is handed out before
      all the bulk frames that wait in front of it, and those stay as they were. */
  lemma OthersOvertakeBulk(s: PriorityQueue.State, bulk: seq<Frame>, f: Frame, rest: seq<Frame>)
    requires s.queue == bulk + [f] + rest
    requires (forall b :: b in bulk ==> b.kind in BULK) && f.kind !in BULK
    ensures var t := PriorityQueue.Apply(s, PriorityQueue.Pop);
            t.delivered == s.delivered + [f] && t.queue == bulk + rest
  {
    FirstBehindBulk(bulk, f, rest);
    assert s.queue[|bulk|] == f;
    assert PriorityQueue.Without(s.queue, |bulk|) == bulk + rest;
  }
}
