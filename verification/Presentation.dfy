// What the S3 stages, and what it shows, of the presentations the bridge sends.
module Presentation {
  import opened Bytes
  import opened CoverUrl
  import opened Frames
  import opened Wrappers

  const TEXT_BYTES := MAX_PAYLOAD - 1

  datatype Key = Key(session: u32, sequence: u32)

  datatype Part = TitlePart | ArtistPart | CoverPart

  datatype Display = Display(title: seq<byte>, artist: seq<byte>, cover: Url)

  /** One queue_bridge_media_presentation. */
  datatype Show = Show(key: Key, title: seq<byte>, artist: seq<byte>, cover: Url)

  /** send_media_text cuts to the payload. */
  function CutText(text: seq<byte>): seq<byte> {
    text[..if |text| < TEXT_BYTES then |text| else TEXT_BYTES]
  }

  /** What a committed presentation looks like. */
  function Shown(show: Show): Display {
    Display(CutText(show.title), CutText(show.artist), show.cover)
  }

  /** The signed 32-bit comparison of sequence numbers within one session. */
  predicate Newer(key: Key, last: Key) {
    key.session != last.session || 0 < (key.sequence - last.sequence) % 0x1_0000_0000 < 0x8000_0000
  }

  /** A number from another session always counts as newer; within a session the number d
      steps on from the last does for exactly half of the circle, so that it may wrap. */
  lemma NewerIff(session: u32, sequence: u32, d: u32, last: Key)
    ensures session != last.session ==> Newer(Key(session, sequence), last)
    ensures Newer(Key(last.session, (last.sequence + d) % 0x1_0000_0000), last) <==> 0 < d < 0x8000_0000
  {
    var next := (last.sequence + d) % 0x1_0000_0000;
    assert next == last.sequence + d || next == last.sequence + d - 0x1_0000_0000;
    assert (next - last.sequence) % 0x1_0000_0000 == d;
  }

  /** Of two different numbers of a session at most one is newer than the other. */
  lemma NotBothNewer(k: Key, l: Key)
    requires k.session == l.session
    ensures !(Newer(k, l) && Newer(l, k))
    ensures !Newer(k, l) && !Newer(l, k) ==>
              k == l || k.sequence == l.sequence + 0x8000_0000 || l.sequence == k.sequence + 0x8000_0000
  {
    var d := k.sequence - l.sequence;
    assert d % 0x1_0000_0000 == if d >= 0 then d else d + 0x1_0000_0000;
    assert (-d) % 0x1_0000_0000 == if d <= 0 then -d else 0x1_0000_0000 - d;
  }

  /** send_pair_u32, as used for BEGIN and COMMIT. */
  function PrintKey(k: Key): seq<byte> {
    U32(k.session) + U32(k.sequence) + [0]
  }

  function PrintText(field: byte, text: seq<byte>): seq<byte> {
    [field] + CutText(text)
  }

  /** The S3 reads back the number and the cut text that were sent. */
  lemma ReadPrinted(k: Key, field: byte, text: seq<byte>)
    ensures var p := PrintKey(k); Key(ReadU32(p, 0), ReadU32(p, 4)) == k && |p| >= 8
    ensures var p := PrintText(field, text); p[0] == field && p[1..] == CutText(text) && |p| <= MAX_PAYLOAD
  {
    var p := PrintKey(k);
    assert p[0..4] == U32(k.session) && p[4..8] == U32(k.sequence);
    ReadWriteU32(p, 0, k.session);
    ReadWriteU32(p, 4, k.sequence);
  }

  datatype Stage = Stage(ready: bool, atomic: bool, pending: bool, key: Key, staged: Display, parts: set<Part>,
                         display: Display, last: Key)
  {
    predicate Staging() {
      atomic && pending
    }

    function BridgeStatus(up: bool, atomicMedia: bool): Stage {
      var a := up && atomicMedia;
      if a != atomic then this.(ready := up, atomic := a, pending := false, parts := {})
      else this.(ready := up)
    }

    function LinkDown(): Stage {
      this.(ready := false, atomic := false, pending := false, parts := {})
    }

    function Begin(k: Key): Stage {
      if !atomic then this
      else this.(key := k, staged := Display([], [], []), parts := {}, pending := true)
    }

    function Title(text: seq<byte>): Stage {
      if !ready then this
      else if Staging() then this.(staged := staged.(title := text), parts := parts + {TitlePart})
      else this.(display := display.(title := text))
    }

    function Artist(text: seq<byte>): Stage {
      if !ready then this
      else if Staging() then this.(staged := staged.(artist := text), parts := parts + {ArtistPart})
      else this.(display := display.(artist := text))
    }

    function Cover(url: Url): Stage {
      if Staging() then this.(staged := staged.(cover := url), parts := parts + {CoverPart})
      else this.(display := display.(cover := url))
    }

    /** The commit is taken up. */
    predicate Commits(k: Key) {
      Staging() && k == key && parts == {TitlePart, ArtistPart, CoverPart} && Newer(k, last)
    }

    function Commit(k: Key): Stage {
      if !Commits(k) then this else this.(display := staged, last := k, pending := false, parts := {})
    }
  }

  /** The globals the S3 frame handlers assign. */
  class PresentationStage {
    var ready: bool
    var atomic: bool
    var pending: bool
    var key: Key
    var staged: Display
    var parts: set<Part>
    var display: Display
    var last: Key

    ghost function Abs(): Stage
      reads this
    {
      Stage(ready, atomic, pending, key, staged, parts, display, last)
    }

    method BridgeStatus(up: bool, atomicMedia: bool)
      modifies this
      ensures Abs() == old(Abs()).BridgeStatus(up, atomicMedia)
    {
      ready := up;
      if atomic != (up && atomicMedia) {
        pending, parts := false, {};
      }
      atomic := up && atomicMedia;
    }

    method LinkDown()
      modifies this
      ensures Abs() == old(Abs()).LinkDown()
    {
      ready, atomic, pending, parts := false, false, false, {};
    }

    method Begin(payload: seq<byte>)
      modifies this
      ensures Abs() == if |payload| < 8 then old(Abs())
                       else old(Abs()).Begin(Key(ReadU32(payload, 0), ReadU32(payload, 4)))
    {
      if atomic && |payload| >= 8 {
        key := Key(ReadU32(payload, 0), ReadU32(payload, 4));
        staged, parts, pending := Display([], [], []), {}, true;
      }
    }

    /** The TITLE and ARTIST cases of the text handler. */
    method Text(payload: seq<byte>)
      modifies this
      ensures Abs() == if |payload| < 1 then old(Abs())
                       else if payload[0] == 1 then old(Abs()).Title(payload[1..])
                       else if payload[0] == 2 then old(Abs()).Artist(payload[1..])
                       else old(Abs())
    {
      if |payload| < 1 || !ready {
        return;
      }
      var value := payload[1..];
      if payload[0] == 1 {
        if atomic && pending {
          staged, parts := staged.(title := value), parts + {TitlePart};
        } else {
          display := display.(title := value);
        }
      } else if payload[0] == 2 {
        if atomic && pending {
          staged, parts := staged.(artist := value), parts + {ArtistPart};
        } else {
          display := display.(artist := value);
        }
      }
    }

    /** What the URL handler does with a URL the receiver completed. */
    method Cover(url: Url)
      modifies this
      ensures Abs() == old(Abs()).Cover(url)
    {
      if atomic && pending {
        staged, parts := staged.(cover := url), parts + {CoverPart};
      } else {
        display := display.(cover := url);
      }
    }

    method Commit(payload: seq<byte>)
      modifies this
      ensures Abs() == if |payload| < 8 then old(Abs())
                       else old(Abs()).Commit(Key(ReadU32(payload, 0), ReadU32(payload, 4)))
    {
      if !atomic || !pending || |payload| < 8 {
        return;
      }
      var k := Key(ReadU32(payload, 0), ReadU32(payload, 4));
      var matches := k == key;
      var complete := parts == {TitlePart, ArtistPart, CoverPart};
      var difference := (k.sequence - last.sequence) % 0x1_0000_0000;
      var newer := k.session != last.session || 0 < difference < 0x8000_0000;
      if !matches || !complete || !newer {
        return;
      }
      display, last, pending, parts := staged, k, false, {};
    }
  }

  /** The bridge side: the globals of queue_bridge_media_presentation and of the
      acknowledgement case, and the frames they send. */
  class PresentationBridge {
    const sender: CoverUrlSender
    var authoritative: bool
    var current: Show
    var presented: Key
    var dirty: bool

    constructor (show: Show)
      ensures fresh(sender) && sender.Abs() == Sender([], 0, 0, Idle, false) && current == show && !authoritative
    {
      sender := new CoverUrlSender();
      authoritative, current, presented, dirty := false, show, Key(0, 0), false;
    }

    method QueuePresentation() returns (sent: seq<(byte, seq<byte>)>)
      modifies this, sender
      ensures current == old(current) && authoritative == old(authoritative)
      ensures !authoritative ==> sent == [] && sender.Abs() == old(sender.Abs()) && presented == old(presented)
      ensures authoritative ==>
                && sent == [(MEDIA_PRESENTATION_BEGIN, PrintKey(current.key)),
                            (MEDIA_TEXT, PrintText(1, current.title)), (MEDIA_TEXT, PrintText(2, current.artist))]
                && sender.Abs() == old(sender.Abs()).Queue(current.cover).0
                && presented == current.key && !dirty
    {
      if !authoritative {
        return [];
      }
      presented := current.key;
      sent := [(MEDIA_PRESENTATION_BEGIN, PrintKey(presented)), (MEDIA_TEXT, PrintText(1, current.title)),
               (MEDIA_TEXT, PrintText(2, current.artist))];
      var _ := sender.Queue(current.cover);
      dirty := false;
    }

    /** The MEDIA_COVER_URL_ACK case: the COMMIT sent, if one is. */
    method OnUrlAck(frame: Frame) returns (commit: Option<seq<byte>>)
      modifies sender
      ensures var m := Read(frame.kind, frame.payload);
              if m.Some? && m.value.Ack?
              then var (s, result) := old(sender.Abs()).Acknowledge(m.value);
                   sender.Abs() == s && commit == (if result == Some(0) then Some(PrintKey(presented)) else None)
              else sender.Abs() == old(sender.Abs()) && commit == None
    {
      var result := sender.Acknowledge(frame);
      commit := if result == Some(0) then Some(PrintKey(presented)) else None;
    }
  }
}
