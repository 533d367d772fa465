// How a list of library entries becomes the blob that is transferred, how the
// other side reads it back, and the locator index kept beside it.
module LibraryCatalog {
  import opened Bytes
  import opened Wrappers

  const MAX_BYTES := 49152
  const MAX_ENTRIES := 192
  const SLOTS := 6

  type Text = seq<byte>

  /** The words playlist and track. */
  const PLAYLIST: Text := [112, 108, 97, 121, 108, 105, 115, 116]
  const TRACK: Text := [116, 114, 97, 99, 107]

  datatype Entry = Entry(name: Text, uri: Text, itemId: Text, mediaType: Text)

  datatype Lookup = Lookup(locator: Text, itemId: bool)

  datatype PageInfo = PageInfo(total: u16, offset: u16, next: u16, paged: bool, hasMore: bool)

  function Cut(v: Text, limit: nat): Text {
    v[..Min(|v|, limit)]
  }

  /** An entry with its fields cut to what the blob can carry. */
  function CutEntry(e: Entry): Entry {
    Entry(Cut(e.name, 96), Cut(e.uri, 192), Cut(e.itemId, 96), Cut(e.mediaType, 24))
  }

  function CutEntries(entries: seq<Entry>): seq<Entry> {
    seq(|entries|, i requires 0 <= i < |entries| => CutEntry(entries[i]))
  }

  function Field(v: Text): Text
    requires |v| < 0x1_0000
  {
    U16(|v|) + v
  }

  /** The four strings of an entry as they are stored, in order. */
  function FieldsOf(e: Entry): (fields: seq<Text>)
    ensures |fields| == 4 && |fields[0]| <= 96 && |fields[1]| <= 192 && |fields[2]| <= 96 && |fields[3]| <= 24
  {
    [Cut(e.name, 96), Cut(e.uri, 192), Cut(e.itemId, 96), Cut(e.mediaType, 24)]
  }

  type Fields = f: seq<Text> | forall i :: 0 <= i < |f| ==> |f[i]| < 0x1_0000

  function PrintFields(fields: Fields): Text
    decreases |fields|
  {
    if fields == [] then [] else Field(fields[0]) + PrintFields(fields[1..])
  }

  function EntryBytes(e: Entry): Text {
    PrintFields(FieldsOf(e))
  }

  /** The byte image of each entry. */
  function Images(entries: seq<Entry>): (images: seq<Text>)
    ensures |images| == |entries|
  {
    seq(|entries|, i requires 0 <= i < |entries| => EntryBytes(entries[i]))
  }

  /** How many images are taken before one would cross the byte limit. */
  function Fitting(used: nat, images: seq<Text>): (k: nat)
    ensures k <= |images|
    decreases |images|
  {
    if images == [] || used + |images[0]| > MAX_BYTES then 0
    else 1 + Fitting(used + |images[0]|, images[1..])
  }

  /** The entries a blob takes of those offered, after a header of `used` bytes. */
  function Taken(used: nat, offered: seq<Entry>): (taken: seq<Entry>)
    ensures |taken| <= |offered|
  {
    offered[..Fitting(used, Images(offered))]
  }

  function Body(entries: seq<Entry>): Text {
    Concat(Images(entries))
  }

  function SetHeader(kind: byte, count: nat): Text
    requires count <= MAX_ENTRIES
  {
    [1, kind] + U16(count)
  }

  function SetOffered(entries: seq<Entry>): (offered: seq<Entry>)
    ensures |offered| <= MAX_ENTRIES
  {
    entries[..Min(|entries|, MAX_ENTRIES)]
  }

  function SetBlob(kind: byte, entries: seq<Entry>): Text {
    var taken := Taken(4, SetOffered(entries));
    SetHeader(kind, |taken|) + Body(taken)
  }

  /** Entries of a page the index still has room for. */
  function Offered(entries: seq<Entry>, offset: nat): (offered: seq<Entry>)
    ensures |offered| <= MAX_ENTRIES && (offset <= MAX_ENTRIES ==> offset + |offered| <= MAX_ENTRIES)
  {
    entries[..Min(|entries|, if offset < MAX_ENTRIES then MAX_ENTRIES - offset else 0)]
  }

  function NextOffset(offset: u16, count: nat): u16 {
    Min(offset + count, 65535)
  }

  function PageHeader(kind: byte, count: nat, offset: u16, total: u16, hasMore: bool): Text
    requires count <= MAX_ENTRIES
  {
    var next := NextOffset(offset, count);
    [2, kind] + U16(count) + U16(total) + U16(next) + [if hasMore && next < MAX_ENTRIES then 1 else 0]
  }

  function PageBlob(kind: byte, entries: seq<Entry>, offset: u16, total: u16, hasMore: bool): Text {
    var taken := Taken(9, Offered(entries, offset));
    PageHeader(kind, |taken|, offset, total, hasMore) + Body(taken)
  }

  function Locator(e: Entry): Lookup {
    Lookup(if e.uri != [] then e.uri else e.itemId, e.uri == [] && e.itemId != [])
  }

  function Locators(entries: seq<Entry>): seq<Lookup> {
    seq(|entries|, i requires 0 <= i < |entries| => Locator(entries[i]))
  }

  /** What a locator is played back as. */
  function PlayedAs(l: Lookup, kind: byte): Entry {
    Entry([], if l.itemId then [] else l.locator, if l.itemId then l.locator else [],
          if kind == 1 || kind == 4 then PLAYLIST else TRACK)
  }

  /** Of an entry the index keeps its URI, and its id only if it has no URI: that is what
      is played. */
  lemma LocatorIsPlayed(entries: seq<Entry>, i: nat, kind: byte)
    requires i < |entries|
    ensures var e, played := entries[i], PlayedAs(Locators(entries)[i], kind);
            && (e.uri != [] ==> played.uri == e.uri && played.itemId == [])
            && (e.uri == [] ==> played.uri == [] && played.itemId == e.itemId)
            && played.mediaType == if kind in {1, 4} then PLAYLIST else TRACK
  {
  }

  /** The index after set_page; None when the page does not follow on. */
  function PageLookup(lookup: seq<Lookup>, entries: seq<Entry>, offset: u16): Option<seq<Lookup>> {
    if offset > |lookup| then None
    else Some(lookup[..offset] + Locators(Offered(entries, offset)))
  }

  // --------------------------------------------------------------- decoding

  function ReadField(rest: Text): Option<(Text, Text)> {
    if |rest| < 2 then None
    else
      var n := ReadU16(rest, 0);
      if 2 + n > |rest| then None else Some((rest[2..2 + n], rest[2 + n..]))
  }

  /** n fields in turn, and what follows them. */
  function ReadFields(rest: Text, n: nat): (r: Option<(seq<Text>, Text)>)
    ensures r.Some? ==> |r.value.0| == n
    decreases n
  {
    if n == 0 then Some(([], rest))
    else
      var first := ReadField(rest);
      if first.None? then None
      else
        var others := ReadFields(first.value.1, n - 1);
        if others.None? then None else Some(([first.value.0] + others.value.0, others.value.1))
  }

  const FIELDS: nat := 4

  function ReadEntry(rest: Text): Option<(Entry, Text)> {
    var r := ReadFields(rest, FIELDS);
    if r.None? then None
    else Some((Entry(r.value.0[0], r.value.0[1], r.value.0[2], r.value.0[3]), r.value.1))
  }

  /** Exactly `count` entries and nothing behind them. */
  function ReadEntries(rest: Text, count: nat): Option<seq<Entry>>
    decreases count
  {
    if count == 0 then if rest == [] then Some([]) else None
    else
      var first := ReadEntry(rest);
      if first.None? then None
      else
        var others := ReadEntries(first.value.1, count - 1);
        if others.None? then None else Some([first.value.0] + others.value)
  }

  function Decode(blob: Text, expectedKind: byte): Option<(PageInfo, seq<Entry>)> {
    if |blob| < 4 || (blob[0] != 1 && blob[0] != 2) || blob[1] != expectedKind then None
    else if blob[0] == 2 && |blob| < 9 then None
    else
      var count := ReadU16(blob, 2);
      var entries := ReadEntries(blob[if blob[0] == 2 then 9 else 4..], count);
      if entries.None? then None else Some((ReadInfo(blob), entries.value))
  }

  function ReadInfo(blob: Text): PageInfo
    requires |blob| >= 4 && (blob[0] == 2 ==> |blob| >= 9)
  {
    var count := ReadU16(blob, 2);
    if blob[0] != 2 then PageInfo(count, 0, count, false, false)
    else
      var next := ReadU16(blob, 6);
      PageInfo(ReadU16(blob, 4), if next >= count then next - count else 0, next, true, blob[8] % 2 == 1)
  }

  lemma ReadFieldBack(v: Text, rest: Text)
    requires |v| < 0x1_0000
    ensures ReadField(Field(v) + rest) == Some((v, rest))
  {
    var w := Field(v) + rest;
    assert w[0..2] == U16(|v|);
    ReadWriteU16(w, 0, |v|);
    assert w[2..2 + |v|] == v && w[2 + |v|..] == rest;
  }

  lemma {:induction false} ReadFieldsBack(fields: Fields, rest: Text)
    ensures ReadFields(PrintFields(fields) + rest, |fields|) == Some((fields, rest))
    decreases |fields|
  {
    if fields == [] {
      assert PrintFields(fields) + rest == rest;
    } else {
      var behind := PrintFields(fields[1..]) + rest;
      assert PrintFields(fields) + rest == Field(fields[0]) + behind;
      ReadFieldBack(fields[0], behind);
      ReadFieldsBack(fields[1..], rest);
      assert [fields[0]] + fields[1..] == fields;
    }
  }

  lemma ReadEntryBack(e: Entry, rest: Text)
    ensures ReadEntry(EntryBytes(e) + rest) == Some((CutEntry(e), rest))
  {
    ReadFieldsBack(FieldsOf(e), rest);
  }

  lemma EntrySize(e: Entry)
    ensures var f := FieldsOf(e);
            8 <= |EntryBytes(e)| == 8 + |f[0]| + |f[1]| + |f[2]| + |f[3]| <= 416
  {
    var f := FieldsOf(e);
    assert PrintFields(f[3..]) == Field(f[3]) + PrintFields(f[3..][1..]);
    assert PrintFields(f[2..]) == Field(f[2]) + PrintFields(f[3..]);
    assert PrintFields(f[1..]) == Field(f[1]) + PrintFields(f[2..]);
  }

  lemma BodyFirst(entries: seq<Entry>)
    requires entries != []
    ensures Body(entries) == EntryBytes(entries[0]) + Body(entries[1..])
  {
    assert Images(entries)[1..] == Images(entries[1..]);
  }

  lemma ReadFirst(e: Entry, behind: Text, n: nat, others: seq<Entry>)
    requires ReadEntries(behind, n) == Some(others)
    ensures ReadEntries(EntryBytes(e) + behind, n + 1) == Some([CutEntry(e)] + others)
  {
    ReadEntryBack(e, behind);
  }

  /** The printed entries read back as their cut selves. */
  ghost predicate ReadBack(entries: seq<Entry>) {
    ReadEntries(Body(entries), |entries|) == Some(CutEntries(entries))
  }

  lemma ReadEntriesStep(entries: seq<Entry>, rest: seq<Entry>)
    requires entries != [] && rest == entries[1..] && ReadBack(rest)
    ensures ReadBack(entries)
  {
    BodyFirst(entries);
    CutFirst(entries);
    ReadFirst(entries[0], Body(rest), |rest|, CutEntries(rest));
  }

  lemma ReadNothing()
    ensures ReadBack([])
  {
    assert Images([]) == [] && CutEntries([]) == [];
  }

  lemma {:induction false} ReadEntriesBack(entries: seq<Entry>)
    ensures ReadBack(entries)
    decreases |entries|
  {
    if entries == [] {
      ReadNothing();
    } else {
      var rest := entries[1..];
      ReadEntriesBack(rest);
      ReadEntriesStep(entries, rest);
    }
  }

  lemma CutFirst(entries: seq<Entry>)
    requires entries != []
    ensures CutEntries(entries) == [CutEntry(entries[0])] + CutEntries(entries[1..])
  {
  }

  /** What is taken is the longest prefix that fits. */
  lemma {:induction false} FittingIsLongest(used: nat, images: seq<Text>)
    requires used <= MAX_BYTES
    ensures used + |Concat(images[..Fitting(used, images)])| <= MAX_BYTES
    ensures forall m :: Fitting(used, images) < m <= |images| ==> used + |Concat(images[..m])| > MAX_BYTES
    decreases |images|
  {
    if images != [] {
      forall m | 0 < m <= |images|
        ensures |Concat(images[..m])| == |images[0]| + |Concat(images[1..][..m - 1])|
      {
        assert images[..m][1..] == images[1..][..m - 1];
      }
      if used + |images[0]| <= MAX_BYTES {
        FittingIsLongest(used + |images[0]|, images[1..]);
      }
    }
  }

  lemma TakenImages(used: nat, offered: seq<Entry>)
    ensures Images(Taken(used, offered)) == Images(offered)[..Fitting(used, Images(offered))]
  {
  }

  /** Images of at most 416 bytes, up to 118 of them, always fit a page. */
  lemma {:induction false} AllFit(used: nat, images: seq<Text>)
    requires used + 416 * |images| <= MAX_BYTES
    requires forall i :: 0 <= i < |images| ==> |images[i]| <= 416
    ensures Fitting(used, images) == |images|
    decreases |images|
  {
    if images != [] {
      AllFit(used + |images[0]|, images[1..]);
    }
  }

  /** set, then transfer, then decode: the longest prefix of at most 192 entries that fits
      48 KiB, every field cut to its limit, and no byte left over. */
  lemma SetRoundTrip(kind: byte, entries: seq<Entry>)
    ensures var taken := Taken(4, SetOffered(entries));
            && |SetBlob(kind, entries)| <= MAX_BYTES
            && Decode(SetBlob(kind, entries), kind)
               == Some((PageInfo(|taken|, 0, |taken|, false, false), CutEntries(taken)))
  {
    var offered := SetOffered(entries);
    FittingIsLongest(4, Images(offered));
    TakenImages(4, offered);
    DecodeSet(kind, Taken(4, offered));
  }

  lemma DecodeSet(kind: byte, taken: seq<Entry>)
    requires |taken| <= MAX_ENTRIES
    ensures Decode(SetHeader(kind, |taken|) + Body(taken), kind)
         == Some((PageInfo(|taken|, 0, |taken|, false, false), CutEntries(taken)))
  {
    var blob := SetHeader(kind, |taken|) + Body(taken);
    assert blob[4..] == Body(taken) && blob[2..4] == U16(|taken|);
    ReadWriteU16(blob, 2, |taken|);
    ReadEntriesBack(taken);
  }

  lemma HeaderFields(kind: byte, count: nat, offset: u16, total: u16, hasMore: bool, body: Text)
    requires count <= MAX_ENTRIES
    ensures var blob, next := PageHeader(kind, count, offset, total, hasMore) + body, NextOffset(offset, count);
            && |blob| >= 9 && blob[0] == 2 && blob[1] == kind && blob[9..] == body
            && ReadU16(blob, 2) == count && ReadU16(blob, 4) == total && ReadU16(blob, 6) == next
            && (blob[8] % 2 == 1 <==> hasMore && next < MAX_ENTRIES)
  {
    var next := NextOffset(offset, count);
    var flag := if hasMore && next < MAX_ENTRIES then 1 else 0;
    var blob := PageHeader(kind, count, offset, total, hasMore) + body;
    assert blob == [2, kind] + (U16(count) + (U16(total) + (U16(next) + ([flag] + body))));
    assert blob[2..4] == U16(count);
    assert blob[4..6] == U16(total);
    assert blob[6..8] == U16(next);
    ReadWriteU16(blob, 2, count);
    ReadWriteU16(blob, 4, total);
    ReadWriteU16(blob, 6, next);
  }

  lemma InfoOfPage(blob: Text, count: u16, offset: u16, total: u16, more: bool)
    requires |blob| >= 9 && blob[0] == 2 && offset + count <= 65535
    requires ReadU16(blob, 2) == count && ReadU16(blob, 4) == total && ReadU16(blob, 6) == offset + count
    requires blob[8] % 2 == 1 <==> more
    ensures ReadInfo(blob) == PageInfo(total, offset, offset + count, true, more)
  {
  }

  lemma DecodePage(blob: Text, kind: byte, taken: seq<Entry>, offset: u16, total: u16, hasMore: bool, next: nat,
                   more: bool)
    requires |taken| <= MAX_ENTRIES && next == offset + |taken| <= 65535 && (more <==> hasMore && next < MAX_ENTRIES)
    requires blob == PageHeader(kind, |taken|, offset, total, hasMore) + Body(taken)
    ensures Decode(blob, kind) == Some((PageInfo(total, offset, next, true, more), CutEntries(taken)))
  {
    HeaderFields(kind, |taken|, offset, total, hasMore, Body(taken));
    InfoOfPage(blob, |taken|, offset, total, more);
    ReadEntriesBack(taken);
  }

  lemma WholePage(kind: byte, entries: seq<Entry>, offered: seq<Entry>, offset: u16, total: u16, hasMore: bool)
    requires offered == Offered(entries, offset) && Taken(9, offered) == offered
    ensures PageBlob(kind, entries, offset, total, hasMore)
         == PageHeader(kind, |offered|, offset, total, hasMore) + Body(offered)
  {
  }

  lemma PageSize(kind: byte, entries: seq<Entry>, offset: u16, total: u16, hasMore: bool)
    ensures |PageBlob(kind, entries, offset, total, hasMore)| <= MAX_BYTES
  {
    var offered := Offered(entries, offset);
    FittingIsLongest(9, Images(offered));
    TakenImages(9, offered);
  }

  /** The same for a page, whose header says where it belongs. */
  lemma PageRoundTrip(kind: byte, entries: seq<Entry>, offset: u16, total: u16, hasMore: bool)
    returns (taken: seq<Entry>, next: nat, more: bool)
    requires offset <= MAX_ENTRIES
    ensures taken == Taken(9, Offered(entries, offset)) && next == offset + |taken|
    ensures more <==> hasMore && next < MAX_ENTRIES
    ensures Decode(PageBlob(kind, entries, offset, total, hasMore), kind)
         == Some((PageInfo(total, offset, next, true, more), CutEntries(taken)))
  {
    taken := Taken(9, Offered(entries, offset));
    next := offset + |taken|;
    more := hasMore && next < MAX_ENTRIES;
    DecodePage(PageBlob(kind, entries, offset, total, hasMore), kind, taken, offset, total, hasMore, next, more);
  }

  /** Everything offered is taken exactly when all of it fits. */
  lemma AllTakenIffFit(used: nat, offered: seq<Entry>)
    requires used <= MAX_BYTES
    ensures |Taken(used, offered)| == |offered| <==> used + |Body(offered)| <= MAX_BYTES
  {
    var images := Images(offered);
    FittingIsLongest(used, images);
    assert images[..|images|] == images;
  }

  /** After set_page the index ends where the page says the next one starts exactly when
      the bytes of all entries offered, with the header, stay within the limit. */
  lemma IndexMatchesPage(lookup: seq<Lookup>, entries: seq<Entry>, offset: u16)
    requires offset <= |lookup| <= MAX_ENTRIES
    ensures var offered := Offered(entries, offset);
            |PageLookup(lookup, entries, offset).value| == NextOffset(offset, |Taken(9, offered)|)
            <==> 9 + |Body(offered)| <= MAX_BYTES
  {
    AllTakenIffFit(9, Offered(entries, offset));
  }

  /** With entries of the greatest length the 119th no longer fits: the index then
      holds a locator the transferred pages never show. */
  lemma IndexCanRunAhead(e: Entry)
    requires |e.name| >= 96 && |e.uri| >= 192 && |e.itemId| >= 96 && |e.mediaType| >= 24
    ensures var entries := seq(119, _ => e);
            && |Taken(9, Offered(entries, 0))| == 118
            && |PageLookup([], entries, 0).value| == 119
  {
    var entries := seq(119, _ => e);
    assert Offered(entries, 0) == entries;
    EntrySize(e);
    FittingOfEqual(9, Images(entries));
  }

  lemma {:induction false} FittingOfEqual(used: nat, images: seq<Text>)
    requires forall i :: 0 <= i < |images| ==> |images[i]| == 416
    requires used <= MAX_BYTES
    ensures Fitting(used, images) == Min(|images|, (MAX_BYTES - used) / 416)
    decreases |images|
  {
    if images != [] && used + 416 <= MAX_BYTES {
      FittingOfEqual(used + 416, images[1..]);
    }
  }

  // -------------------------------------------------------------- the objects

  /** append_string_: the grown blob, unless it would cross the byte limit. */
  method AppendString(blob: Text, value: Text, limit: nat) returns (ok: bool, grown: Text)
    requires limit < 0x1_0000
    ensures ok == (|blob| + |Field(Cut(value, limit))| <= MAX_BYTES)
    ensures grown == if ok then blob + Field(Cut(value, limit)) else blob
  {
    var length := if |value| < limit then |value| else limit;
    if |blob| + 2 + length > MAX_BYTES {
      return false, blob;
    }
    ok, grown := true, blob + (U16(length) + value[..length]);
  }

  lemma FieldsInTurn(blob: Text, f: Fields)
    requires |f| == 4
    ensures blob + Field(f[0]) + Field(f[1]) + Field(f[2]) + Field(f[3]) == blob + PrintFields(f)
    ensures |PrintFields(f)| == |Field(f[0])| + |Field(f[1])| + |Field(f[2])| + |Field(f[3])|
  {
    assert PrintFields(f[3..]) == Field(f[3]) + PrintFields(f[3..][1..]);
    assert PrintFields(f[2..]) == Field(f[2]) + PrintFields(f[3..]);
    assert PrintFields(f[1..]) == Field(f[1]) + PrintFields(f[2..]);
  }

  /** The four append_string_ calls of an entry: all of it, or the leading fields that fit. */
  method AppendEntry(blob: Text, entry: Entry, ghost image: Text) returns (ok: bool, grown: Text)
    requires image == EntryBytes(entry)
    ensures ok == (|blob| + |image| <= MAX_BYTES)
    ensures blob <= grown <= blob + image && (ok ==> grown == blob + image)
  {
    FieldsInTurn(blob, FieldsOf(entry));
    assert blob + image == blob + PrintFields(FieldsOf(entry));
    ok, grown := AppendString(blob, entry.name, 96);
    if !ok {
      return;
    }
    ok, grown := AppendString(grown, entry.uri, 192);
    if !ok {
      return;
    }
    ok, grown := AppendString(grown, entry.itemId, 96);
    if !ok {
      return;
    }
    ok, grown := AppendString(grown, entry.mediaType, 24);
  }

  /** The entry loop of set and set_page: an entry that does not fit is rolled back
      whole, and ends the loop. */
  method AppendEntries(start: Text, offered: seq<Entry>) returns (blob: Text, count: nat)
    requires |start| <= MAX_BYTES
    ensures count <= |offered| && offered[..count] == Taken(|start|, offered)
    ensures blob == start + Body(Taken(|start|, offered))
  {
    blob, count := AppendLoop(start, offered, Images(offered));
    TakenImages(|start|, offered);
  }

  method AppendLoop(start: Text, offered: seq<Entry>, ghost images: seq<Text>) returns (blob: Text, count: nat)
    requires |start| <= MAX_BYTES && |images| == |offered|
    requires forall i :: 0 <= i < |images| ==> images[i] == EntryBytes(offered[i])
    ensures count == Fitting(|start|, images) && blob == start + Concat(images[..count])
  {
    blob, count := start, 0;
    assert images[0..] == images && start + Concat(images[..0]) == start;
    while count < |offered|
      invariant count <= |offered| && Appended(start, images, count, blob)
    {
      var entryStart := |blob|;
      ghost var before := blob;
      var ok;
      ok, blob := AppendEntry(blob, offered[count], images[count]);
      AppendedNext(start, images, count, before, before + images[count]);
      if !ok {
        blob := blob[..entryStart];
        return;
      }
      count := count + 1;
    }
  }

  /** The first `count` images are in the blob, and how many more will be depends on its length. */
  ghost predicate Appended(start: Text, images: seq<Text>, count: nat, blob: Text) {
    && count <= |images| && blob == start + Concat(images[..count])
    && Fitting(|start|, images) == count + Fitting(|blob|, images[count..])
  }

  lemma AppendedNext(start: Text, images: seq<Text>, count: nat, blob: Text, more: Text)
    requires count < |images| && Appended(start, images, count, blob) && more == blob + images[count]
    ensures if |more| > MAX_BYTES then Fitting(|start|, images) == count
            else Appended(start, images, count + 1, more)
  {
    FittingNext(|blob|, images, count);
    BlobNext(start, images, count, blob);
  }

  lemma FittingNext(used: nat, images: seq<Text>, count: nat)
    requires count < |images|
    ensures Fitting(used, images[count..])
         == if used + |images[count]| > MAX_BYTES then 0 else 1 + Fitting(used + |images[count]|, images[count + 1..])
  {
    assert images[count..][1..] == images[count + 1..];
  }

  lemma BlobNext(start: Text, images: seq<Text>, count: nat, blob: Text)
    requires count < |images| && blob == start + Concat(images[..count])
    ensures blob + images[count] == start + Concat(images[..count + 1])
  {
    ConcatSnoc(images, count);
  }

  lemma {:induction false} ConcatConcat(a: seq<Text>, b: seq<Text>)
    ensures Concat(a + b) == Concat(a) + Concat(b)
    decreases |a|
  {
    if a == [] {
      assert a + b == b;
    } else {
      ConcatConcat(a[1..], b);
      assert (a + b)[1..] == a[1..] + b;
    }
  }

  lemma ConcatSnoc(images: seq<Text>, count: nat)
    requires count < |images|
    ensures Concat(images[..count + 1]) == Concat(images[..count]) + images[count]
  {
    var last := [images[count]];
    assert images[..count + 1] == images[..count] + last && last[1..] == [];
    ConcatConcat(images[..count], last);
    assert Concat(last) == images[count] + Concat(last[1..]);
  }

  /** The caches of the library server: per kind the blob to transfer, its context and
      the locator index. */
  class CatalogCache {
    var cache: seq<Text>
    var contexts: seq<u16>
    var ready: seq<bool>
    var lookup: seq<seq<Lookup>>

    ghost predicate Valid()
      reads this
    {
      && |cache| == SLOTS && |contexts| == SLOTS && |ready| == SLOTS && |lookup| == SLOTS
      && forall i :: 0 <= i < SLOTS ==> |cache[i]| <= MAX_BYTES && |lookup[i]| <= MAX_ENTRIES
    }

    constructor ()
      ensures Valid() && forall i :: 0 <= i < SLOTS ==> !ready[i] && lookup[i] == []
    {
      cache, contexts := seq(SLOTS, _ => []), seq(SLOTS, _ => 0);
      ready, lookup := seq(SLOTS, _ => false), seq(SLOTS, _ => []);
    }

    /** set: the index holds a locator for each entry that went into the blob. */
    method Set(kind: byte, entries: seq<Entry>) returns (ok: bool)
      requires Valid()
      modifies this
      ensures Valid() && ok == (0 < kind < SLOTS)
      ensures !ok ==> cache == old(cache) && contexts == old(contexts) && ready == old(ready) && lookup == old(lookup)
      ensures ok ==>
                && cache == old(cache)[kind := SetBlob(kind, entries)]
                && contexts == old(contexts)[kind := 0] && ready == old(ready)[kind := true]
                && lookup == old(lookup)[kind := Locators(Taken(4, SetOffered(entries)))]
    {
      if kind == 0 || kind >= SLOTS {
        return false;
      }
      var blob, count := BuildSet(kind, entries);
      SetRoundTrip(kind, entries);
      var index := BuildLocators(entries[..count]);
      cache, contexts, ready := cache[kind := blob], contexts[kind := 0], ready[kind := true];
      lookup := lookup[kind := index];
      ok := true;
    }

    /** set_page: refused, with nothing changed, when the page leaves a gap. */
    method SetPage(kind: byte, entries: seq<Entry>, offset: u16, total: u16, hasMore: bool, context: u16)
      returns (ok: bool)
      requires Valid()
      modifies this
      ensures Valid() && ok == (0 < kind < SLOTS && offset <= |old(lookup)[kind]|)
      ensures !ok ==> cache == old(cache) && contexts == old(contexts) && ready == old(ready) && lookup == old(lookup)
      ensures ok ==>
                && cache == old(cache)[kind := PageBlob(kind, entries, offset, total, hasMore)]
                && contexts == old(contexts)[kind := context] && ready == old(ready)[kind := true]
                && lookup == old(lookup)[kind := PageLookup(old(lookup)[kind], entries, offset).value]
    {
      if kind == 0 || kind >= SLOTS || offset > |lookup[kind]| {
        return false;
      }
      var kept := lookup[kind][..offset];
      var remaining := if offset < MAX_ENTRIES then MAX_ENTRIES - offset else 0;
      var offered := entries[..if |entries| < remaining then |entries| else remaining];
      var index := BuildLocators(offered);
      var blob := BuildPage(kind, offered, offset, total, hasMore);
      assert offered == Offered(entries, offset);
      PageSize(kind, entries, offset, total, hasMore);
      cache, contexts, ready := cache[kind := blob], contexts[kind := context], ready[kind := true];
      lookup := lookup[kind := kept + index];
      ok := true;
    }

    /** entry: what a locator of the index is played back as. */
    method Lookup(kind: byte, index: u16) returns (entry: Option<Entry>)
      requires Valid()
      ensures entry.Some? <==> 0 < kind < SLOTS && ready[kind] && index < |lookup[kind]|
      ensures entry.Some? ==> entry.value == PlayedAs(lookup[kind][index], kind)
    {
      if kind == 0 || kind >= SLOTS || !ready[kind] || index >= |lookup[kind]| {
        return None;
      }
      var found := lookup[kind][index];
      var mediaType := if kind == 1 || kind == 4 then PLAYLIST else TRACK;
      if found.itemId {
        return Some(Entry([], [], found.locator, mediaType));
      }
      return Some(Entry([], found.locator, [], mediaType));
    }
  }

  /** The blob part of set: the count is patched into the header at the end. */
  method BuildSet(kind: byte, entries: seq<Entry>) returns (blob: Text, count: nat)
    ensures blob == SetBlob(kind, entries)
    ensures count <= |entries| && entries[..count] == Taken(4, SetOffered(entries))
  {
    var offered := entries[..if |entries| < MAX_ENTRIES then |entries| else MAX_ENTRIES];
    blob, count := AppendEntries([1, kind, 0, 0], offered);
    ghost var body := Body(Taken(4, offered));
    assert blob[..2] == [1, kind] && blob[4..] == body;
    blob := blob[..2] + U16(count) + blob[4..];
    assert entries[..count] == offered[..count];
  }

  /** The blob part of set_page. */
  method BuildPage(kind: byte, offered: seq<Entry>, offset: u16, total: u16, hasMore: bool) returns (blob: Text)
    requires |offered| <= MAX_ENTRIES
    ensures blob == PageHeader(kind, |Taken(9, offered)|, offset, total, hasMore) + Body(Taken(9, offered))
  {
    var count;
    blob, count := AppendEntries([2, kind, 0, 0, 0, 0, 0, 0, 0], offered);
    ghost var body := Body(Taken(9, offered));
    assert blob[9..] == body;
    var next := if offset + count < 65535 then offset + count else 65535;
    var header := [2, kind] + U16(count) + U16(total) + U16(next) + [if hasMore && next < MAX_ENTRIES then 1 else 0];
    blob := header + blob[9..];
  }

  method BuildLocators(entries: seq<Entry>) returns (index: seq<Lookup>)
    ensures index == Locators(entries)
  {
    index := [];
    for i := 0 to |entries|
      invariant index == Locators(entries[..i])
    {
      index := index + [Locator(entries[i])];
      assert entries[..i + 1] == entries[..i] + [entries[i]];
    }
    assert entries[..|entries|] == entries;
  }

  /** The two loops of decode_, over the whole blob. */
  method DecodeBlob(blob: Text, expectedKind: byte) returns (result: Option<(PageInfo, seq<Entry>)>)
    ensures result == Decode(blob, expectedKind)
  {
    if |blob| < 4 || (blob[0] != 1 && blob[0] != 2) || blob[1] != expectedKind {
      return None;
    }
    if blob[0] == 2 && |blob| < 9 {
      return None;
    }
    var start, count := if blob[0] == 2 then 9 else 4, ReadU16(blob, 2);
    PrependNone(ReadEntries(blob[start..], count));
    var entries := DecodeEntries(blob, start, count, ReadEntries(blob[start..], count));
    if entries.None? {
      return None;
    }
    return Some((ReadInfo(blob), entries.value));
  }

  method DecodeEntries(blob: Text, start: nat, count: nat, ghost target: Option<seq<Entry>>)
    returns (result: Option<seq<Entry>>)
    requires start <= |blob| && Reading(target, [], blob[start..], count)
    ensures result == target
  {
    var entries, offset, index := [], start, 0;
    ghost var rest, left := blob[start..], count;
    while index < count
      invariant left == count - index && 0 <= offset <= |blob|
      invariant rest == blob[offset..] && Reading(target, entries, rest, left)
    {
      left := left - 1;
      var ok;
      ok, entries, offset, rest := DecodeNext(entries, blob, offset, rest, left, target);
      if !ok {
        return None;
      }
      index := index + 1;
    }
    ReadingDone(target, entries, blob, offset, rest);
    result := if offset == |blob| then Some(entries) else None;
  }

  /** What the whole reading amounts to, given the entries read so far. */
  ghost predicate Reading(target: Option<seq<Entry>>, entries: seq<Entry>, rest: Text, n: nat) {
    target == Prepend(entries, ReadEntries(rest, n))
  }

  lemma ReadingDone(target: Option<seq<Entry>>, entries: seq<Entry>, blob: Text, offset: nat, rest: Text)
    requires offset <= |blob| && rest == blob[offset..] && Reading(target, entries, rest, 0)
    ensures target == if offset == |blob| then Some(entries) else None
  {
    assert entries + [] == entries;
  }

  function Prepend(front: seq<Entry>, back: Option<seq<Entry>>): Option<seq<Entry>> {
    if back.None? then None else Some(front + back.value)
  }

  lemma PrependNone(back: Option<seq<Entry>>)
    ensures Prepend([], back) == back
  {
    assert back.Some? ==> [] + back.value == back.value;
  }

  method DecodeNext(entries: seq<Entry>, blob: Text, start: nat, ghost rest: Text, ghost n: nat,
                    ghost target: Option<seq<Entry>>)
    returns (ok: bool, more: seq<Entry>, next: nat, ghost left: Text)
    requires start <= |blob| && rest == blob[start..] && Reading(target, entries, rest, n + 1)
    ensures next <= |blob| && left == blob[next..]
    ensures if ok then Reading(target, more, left, n) else target == None
  {
    var entry;
    entry, next := DecodeEntry(blob, start);
    left := blob[next..];
    ReadStep(entries, rest, n);
    if entry.None? {
      return false, entries, next, left;
    }
    ok, more := true, entries + [entry.value];
  }

  lemma ReadStep(entries: seq<Entry>, rest: Text, n: nat)
    ensures var first := ReadEntry(rest);
            Prepend(entries, ReadEntries(rest, n + 1))
            == if first.None? then None else Prepend(entries + [first.value.0], ReadEntries(first.value.1, n))
  {
    var first := ReadEntry(rest);
    if first.Some? && ReadEntries(first.value.1, n).Some? {
      var others := ReadEntries(first.value.1, n).value;
      assert entries + ([first.value.0] + others) == entries + [first.value.0] + others;
    }
  }

  method DecodeField(blob: Text, offset: nat) returns (field: Option<Text>, next: nat)
    requires offset <= |blob|
    ensures next <= |blob|
    ensures ReadField(blob[offset..]) == if field.None? then None else Some((field.value, blob[next..]))
  {
    if offset + 2 > |blob| {
      return None, offset;
    }
    ghost var rest := blob[offset..];
    var length := ReadU16(blob, offset);
    assert length == ReadU16(rest, 0);
    next := offset + 2;
    if next + length > |blob| {
      return None, next;
    }
    assert rest[2..2 + length] == blob[next..next + length] && rest[2 + length..] == blob[next + length..];
    return Some(blob[next..next + length]), next + length;
  }

  /** The loop over the four fields of one entry. */
  method DecodeEntry(blob: Text, start: nat) returns (entry: Option<Entry>, offset: nat)
    requires start <= |blob|
    ensures offset <= |blob|
    ensures ReadEntry(blob[start..]) == if entry.None? then None else Some((entry.value, blob[offset..]))
  {
    var fields: seq<Text> := [];
    offset := start;
    ghost var target := ReadFields(blob[start..], FIELDS);
    FieldsStart(blob[start..]);
    ghost var rest := blob[start..];
    while |fields| < FIELDS
      invariant |fields| <= FIELDS && offset <= |blob| && rest == blob[offset..]
      invariant target == FieldsAfter(fields, rest, FIELDS - |fields|)
    {
      var field, next := DecodeField(blob, offset);
      FieldStep(fields, rest, FIELDS - 1 - |fields|);
      rest := blob[next..];
      if field.None? {
        return None, offset;
      }
      fields, offset := fields + [field.value], next;
    }
    assert fields + [] == fields;
    return Some(Entry(fields[0], fields[1], fields[2], fields[3])), offset;
  }

  function FieldsAfter(front: seq<Text>, rest: Text, n: nat): Option<(seq<Text>, Text)> {
    var r := ReadFields(rest, n);
    if r.None? then None else Some((front + r.value.0, r.value.1))
  }

  lemma FieldsStart(rest: Text)
    ensures FieldsAfter([], rest, FIELDS) == ReadFields(rest, FIELDS)
  {
    var r := ReadFields(rest, FIELDS);
    assert r.Some? ==> [] + r.value.0 == r.value.0;
  }

  lemma FieldStep(front: seq<Text>, rest: Text, n: nat)
    ensures var first := ReadField(rest);
            FieldsAfter(front, rest, n + 1)
            == if first.None? then None else FieldsAfter(front + [first.value.0], first.value.1, n)
  {
    var first := ReadField(rest);
    if first.Some? && ReadFields(first.value.1, n).Some? {
      var others := ReadFields(first.value.1, n).value.0;
      assert front + ([first.value.0] + others) == front + [first.value.0] + others;
    }
  }
}
