// Walking a filtered catalog page by page: what the server's locator index and the
// decoded pages add up to.
module LibraryPaging {
  import opened Bytes
  import opened LibraryCatalog
  import opened Wrappers

  const MAX_PAGE := 100

  datatype Page = Page(items: seq<Entry>, total: nat, hasMore: bool)

  /** bounded_page with the library's maximum. */
  function BoundedPage(offset: int, limit: int, maximum: nat): (int, int) {
    (if offset > 0 then offset else 0,
     var least := if limit > 1 then limit else 1; if least < maximum then least else maximum)
  }

  /** The entries whose locator the user has allowed, in catalog order. */
  function Select(items: seq<Entry>, allowed: set<Text>): seq<Entry> {
    if items == [] then []
    else (if items[0].uri in allowed then [items[0]] else []) + Select(items[1..], allowed)
  }

  /** list[start : end] of the source, whose bounds may lie outside the list. */
  function Slice(list: seq<Entry>, start: nat, end: nat): seq<Entry>
    requires start <= end
  {
    list[Min(start, |list|)..Min(end, |list|)]
  }

  function PageOf(selected: seq<Entry>, offset: nat, limit: nat): Page {
    var page := Slice(selected, offset, offset + limit);
    Page(page, |selected|, offset + |page| < |selected|)
  }

  /** filter_library_page, on the entries already normalized. */
  function FilterLibraryPage(items: seq<Entry>, allowed: set<Text>, offset: nat, limit: nat): Page {
    PageOf(Select(items, allowed), offset, limit)
  }

  /** The blob set_page stores for a page; the bridge clips the total to 16 bits. */
  function StoredPage(kind: byte, page: Page, offset: u16): Text {
    PageBlob(kind, page.items, offset, Min(page.total, 65535), page.hasMore)
  }

  /** One page on its way: asked for at `offset` with `limit`, stored by set_page over
      the index `before`, and what the other side decodes. */
  datatype Visit = Visit(limit: nat, offset: u16, before: seq<Lookup>, after: seq<Lookup>, info: PageInfo,
                         entries: seq<Entry>)

  ghost predicate IsVisit(kind: byte, selected: seq<Entry>, v: Visit) {
    var page := PageOf(selected, v.offset, v.limit);
    && 1 <= v.limit <= MAX_PAGE
    && PageLookup(v.before, page.items, v.offset) == Some(v.after)
    && Decode(StoredPage(kind, page, v.offset), kind) == Some((v.info, v.entries))
  }

  /** Each page is asked for where the previous one said the next begins. */
  ghost predicate IsWalk(kind: byte, selected: seq<Entry>, walk: seq<Visit>) {
    && (walk != [] ==> walk[0].offset == 0)
    && AllVisits(kind, selected, walk)
    && (forall i :: 0 < i < |walk| ==> Follows(walk[i - 1], walk[i]))
  }

  ghost predicate AllVisits(kind: byte, selected: seq<Entry>, walk: seq<Visit>) {
    forall v :: v in walk ==> IsVisit(kind, selected, v)
  }

  ghost predicate Follows(v: Visit, w: Visit) {
    v.info.hasMore && w.offset == v.info.next && w.before == v.after
  }

  function Decoded(walk: seq<Visit>): seq<Entry> {
    if walk == [] then [] else Decoded(walk[..|walk| - 1]) + walk[|walk| - 1].entries
  }

  /** What a walk can reach of the selected entries. */
  function Reach(selected: seq<Entry>): nat {
    Min(|selected|, MAX_ENTRIES)
  }

  /** Whatever is asked for, the page answered holds at most 100 of the selected entries
      from the offset on, is empty only at the end, and a short page is the last. */
  lemma BoundedPageIsNext(items: seq<Entry>, allowed: set<Text>, offset: int, limit: int)
    ensures var (o, l) := BoundedPage(offset, limit, MAX_PAGE);
            var selected := Select(items, allowed);
            && o >= 0 && 1 <= l <= MAX_PAGE
            && var page := FilterLibraryPage(items, allowed, o, l);
               && |page.items| <= l && page.total == |selected|
               && (o <= |selected| ==> page.items <= selected[o..])
               && (page.items == [] <==> o >= |selected|)
               && (page.hasMore ==> |page.items| == l && o + l < |selected|)
               && (!page.hasMore && o <= |selected| ==> page.items == selected[o..])
  {
    var (o, l) := BoundedPage(offset, limit, MAX_PAGE);
    var selected := Select(items, allowed);
    var page := FilterLibraryPage(items, allowed, o, l);
    if o <= |selected| {
      assert page.items == selected[o..][..|page.items|];
    }
  }

  lemma {:induction false} AllOfPageFit(entries: seq<Entry>)
    requires |entries| <= MAX_PAGE
    ensures Taken(9, entries) == entries
  {
    forall i | 0 <= i < |entries|
      ensures |Images(entries)[i]| <= 416
    {
      EntrySize(entries[i]);
    }
    AllFit(9, Images(entries));
  }

  lemma OfferedItems(selected: seq<Entry>, offset: u16, end: nat)
    requires offset <= |selected| && offset <= MAX_ENTRIES && offset <= end <= |selected|
    ensures Offered(selected[offset..end], offset) == selected[offset..Min(end, MAX_ENTRIES)]
  {
    var items := selected[offset..end];
    assert items[..Min(|items|, MAX_ENTRIES - offset)] == selected[offset..Min(end, MAX_ENTRIES)];
  }

  lemma OfferedOfPage(selected: seq<Entry>, offset: u16, limit: nat)
    requires offset <= Reach(selected)
    ensures var next := Min(offset + limit, Reach(selected));
            && offset <= next
            && Offered(PageOf(selected, offset, limit).items, offset) == selected[offset..next]
            && (PageOf(selected, offset, limit).hasMore && next < MAX_ENTRIES <==> next < Reach(selected))
  {
    OfferedItems(selected, offset, Min(offset + limit, |selected|));
  }

  lemma StoredWhole(kind: byte, page: Page, offset: u16, offered: seq<Entry>, total: u16)
    requires offered == Offered(page.items, offset) && |offered| <= MAX_PAGE && total == Min(page.total, 65535)
    ensures StoredPage(kind, page, offset)
         == PageHeader(kind, |offered|, offset, total, page.hasMore) + Body(offered)
  {
    AllOfPageFit(offered);
    WholePage(kind, page.items, offered, offset, total, page.hasMore);
  }

  lemma WholePageDecoded(kind: byte, page: Page, offset: u16, offered: seq<Entry>, next: nat, more: bool)
    requires offset <= MAX_ENTRIES && offered == Offered(page.items, offset) && |offered| <= MAX_PAGE
    requires next == offset + |offered| && (more <==> page.hasMore && next < MAX_ENTRIES)
    ensures Decode(StoredPage(kind, page, offset), kind)
         == Some((PageInfo(Min(page.total, 65535), offset, next, true, more), CutEntries(offered)))
  {
    var total := Min(page.total, 65535);
    StoredWhole(kind, page, offset, offered, total);
    DecodePage(StoredPage(kind, page, offset), kind, offered, offset, total, page.hasMore, next, more);
  }

  /** What the other side decodes of a page of at most 100 entries. */
  lemma PageDecoded(kind: byte, selected: seq<Entry>, offset: u16, limit: nat, next: nat)
    requires offset <= Reach(selected) && limit <= MAX_PAGE && next == Min(offset + limit, Reach(selected))
    ensures Decode(StoredPage(kind, PageOf(selected, offset, limit), offset), kind)
         == Some((PageInfo(Min(|selected|, 65535), offset, next, true, next < Reach(selected)),
                  CutEntries(selected[offset..next])))
  {
    OfferedOfPage(selected, offset, limit);
    var more := next < Reach(selected);
    WholePageDecoded(kind, PageOf(selected, offset, limit), offset, selected[offset..next], next, more);
  }

  lemma LocatorsConcat(selected: seq<Entry>, from: nat, to: nat)
    requires from <= to <= |selected|
    ensures Locators(selected[..from]) + Locators(selected[from..to]) == Locators(selected[..to])
  {
  }

  lemma CutConcat(selected: seq<Entry>, from: nat, to: nat)
    requires from <= to <= |selected|
    ensures CutEntries(selected[..from]) + CutEntries(selected[from..to]) == CutEntries(selected[..to])
  {
  }

  lemma PageIndexed(selected: seq<Entry>, before: seq<Lookup>, offset: u16, limit: nat)
    requires offset <= Reach(selected) && offset <= |before| && before[..offset] == Locators(selected[..offset])
    ensures PageLookup(before, PageOf(selected, offset, limit).items, offset)
         == Some(Locators(selected[..Min(offset + limit, Reach(selected))]))
  {
    var next := Min(offset + limit, Reach(selected));
    OfferedOfPage(selected, offset, limit);
    LocatorsConcat(selected, offset, next);
  }

  /** A page stored where the index agrees with the selection extends the agreement
      to where the page ends. */
  ghost predicate Extends(selected: seq<Entry>, v: Visit) {
    v.offset <= Reach(selected) && v.offset <= |v.before| && v.before[..v.offset] == Locators(selected[..v.offset]) ==>
      && v.info.offset == v.offset <= v.info.next <= Reach(selected)
      && (v.info.hasMore <==> v.info.next < Reach(selected))
      && (v.info.hasMore ==> v.offset < v.info.next)
      && v.after == Locators(selected[..v.info.next])
      && v.entries == CutEntries(selected[v.offset..v.info.next])
  }

  lemma VisitExtends(kind: byte, selected: seq<Entry>, v: Visit)
    requires IsVisit(kind, selected, v)
    ensures Extends(selected, v)
  {
    if v.offset <= Reach(selected) && v.offset <= |v.before| && v.before[..v.offset] == Locators(selected[..v.offset]) {
      PageDecoded(kind, selected, v.offset, v.limit, Min(v.offset + v.limit, Reach(selected)));
      PageIndexed(selected, v.before, v.offset, v.limit);
    }
  }

  /** A walk of which only the effect of each page is known. */
  ghost predicate IsChain(selected: seq<Entry>, walk: seq<Visit>) {
    && (walk != [] ==> walk[0].offset == 0)
    && (forall i :: 0 <= i < |walk| ==> Extends(selected, walk[i]))
    && (forall i :: 0 < i < |walk| ==> Follows(walk[i - 1], walk[i]))
  }

  lemma AllExtend(kind: byte, selected: seq<Entry>, walk: seq<Visit>)
    requires AllVisits(kind, selected, walk)
    ensures forall v :: v in walk ==> Extends(selected, v)
  {
    forall v | v in walk
      ensures Extends(selected, v)
    {
      VisitExtends(kind, selected, v);
    }
  }

  lemma WalkIsChain(kind: byte, selected: seq<Entry>, walk: seq<Visit>)
    requires IsWalk(kind, selected, walk)
    ensures IsChain(selected, walk)
  {
    AllExtend(kind, selected, walk);
  }

  /** Where a walk stands: what is indexed and decoded, and whether there is more. */
  ghost predicate Reached(selected: seq<Entry>, v: Visit, decoded: seq<Entry>) {
    && v.info.offset == v.offset && v.info.next <= Reach(selected)
    && (v.info.hasMore <==> v.info.next < Reach(selected))
    && v.after == Locators(selected[..v.info.next])
    && decoded == CutEntries(selected[..v.info.next])
  }

  lemma ChainStep(selected: seq<Entry>, v: Visit, decoded: seq<Entry>)
    requires Extends(selected, v) && v.offset <= Reach(selected)
    requires v.offset == 0 || v.before == Locators(selected[..v.offset])
    requires decoded == CutEntries(selected[..v.offset])
    ensures Reached(selected, v, decoded + v.entries) && (v.info.hasMore ==> v.offset < v.info.next)
  {
    if v.offset > 0 {
      assert v.before[..v.offset] == v.before;
    }
    CutConcat(selected, v.offset, v.info.next);
  }

  lemma {:induction false} ChainReaches(selected: seq<Entry>, walk: seq<Visit>)
    requires IsChain(selected, walk) && walk != []
    ensures var last := walk[|walk| - 1];
            Reached(selected, last, Decoded(walk)) && |walk| <= last.info.next + if last.info.hasMore then 0 else 1
    decreases |walk|
  {
    var n := |walk|;
    var last, init := walk[n - 1], walk[..n - 1];
    if n > 1 {
      ChainReaches(selected, init);
      assert Follows(walk[n - 2], last);
    } else {
      assert CutEntries(selected[..0]) == [];
    }
    assert Extends(selected, last);
    ChainStep(selected, last, Decoded(init));
  }

  /** A walk ends, and when it has ended the index holds the locators of the first 192
      selected entries, every page reported the offset it was stored at, and the pages
      together are those same entries without gap or repeat. */
  lemma WalkIsComplete(kind: byte, items: seq<Entry>, allowed: set<Text>, walk: seq<Visit>)
    requires IsWalk(kind, Select(items, allowed), walk) && walk != []
    ensures var selected, last := Select(items, allowed), walk[|walk| - 1];
            && |walk| <= Reach(selected) + 1
            && (forall i :: 0 <= i < |walk| ==> walk[i].info.offset == walk[i].offset)
            && (!last.info.hasMore ==>
                  && last.after == Locators(selected[..Reach(selected)])
                  && Decoded(walk) == CutEntries(selected[..Reach(selected)]))
  {
    var selected := Select(items, allowed);
    WalkIsChain(kind, selected, walk);
    ChainReaches(selected, walk);
    OffsetsReported(selected, walk);
  }

  lemma OffsetsReported(selected: seq<Entry>, walk: seq<Visit>)
    requires IsChain(selected, walk)
    ensures forall i :: 0 <= i < |walk| ==> walk[i].info.offset == walk[i].offset
  {
    forall i | 0 <= i < |walk|
      ensures walk[i].info.offset == walk[i].offset
    {
      var part := walk[..i + 1];
      assert forall k :: 0 < k < |part| ==> Follows(walk[k - 1], walk[k]);
      ChainReaches(selected, part);
    }
  }

  /** As long as a page says there is more, the next one can be stored, whatever its limit. */
  lemma WalkContinues(kind: byte, selected: seq<Entry>, walk: seq<Visit>, limit: nat)
    returns (v: Visit)
    requires IsWalk(kind, selected, walk) && walk != [] && walk[|walk| - 1].info.hasMore
    requires 1 <= limit <= MAX_PAGE
    ensures v.limit == limit && IsWalk(kind, selected, walk + [v])
  {
    var last := walk[|walk| - 1];
    WalkIsChain(kind, selected, walk);
    ChainReaches(selected, walk);
    v := NextVisit(kind, selected, last, limit);
    OneMoreVisit(kind, selected, walk, v);
    LongerWalk(kind, selected, walk, v);
  }

  lemma OneMoreVisit(kind: byte, selected: seq<Entry>, walk: seq<Visit>, v: Visit)
    requires AllVisits(kind, selected, walk) && IsVisit(kind, selected, v)
    ensures AllVisits(kind, selected, walk + [v])
  {
    forall w | w in walk + [v]
      ensures IsVisit(kind, selected, w)
    {
      assert w in walk || w == v;
    }
  }

  lemma LongerWalk(kind: byte, selected: seq<Entry>, walk: seq<Visit>, v: Visit)
    requires IsWalk(kind, selected, walk) && walk != [] && AllVisits(kind, selected, walk + [v])
    requires Follows(walk[|walk| - 1], v)
    ensures IsWalk(kind, selected, walk + [v])
  {
    var longer := walk + [v];
    forall i | 0 < i < |longer|
      ensures Follows(longer[i - 1], longer[i])
    {
      if i < |walk| {
        assert Follows(walk[i - 1], walk[i]);
      }
    }
  }

  lemma NextVisit(kind: byte, selected: seq<Entry>, last: Visit, limit: nat) returns (v: Visit)
    requires last.info.hasMore && last.info.next < Reach(selected)
    requires last.after == Locators(selected[..last.info.next]) && 1 <= limit <= MAX_PAGE
    ensures v.limit == limit && IsVisit(kind, selected, v) && Follows(last, v)
  {
    var offset := last.info.next;
    assert last.after[..offset] == Locators(selected[..offset]);
    var next := Min(offset + limit, Reach(selected));
    PageDecoded(kind, selected, offset, limit, next);
    PageIndexed(selected, last.after, offset, limit);
    v := Visit(limit, offset, last.after, Locators(selected[..next]),
               PageInfo(Min(|selected|, 65535), offset, next, true, next < Reach(selected)),
               CutEntries(selected[offset..next]));
  }

  // The selection keeps order and multiplicity, and drops exactly what is not allowed.

  ghost predicate IsSubsequence(part: seq<Entry>, whole: seq<Entry>)
    decreases |whole|
  {
    part == [] || (whole != [] && (IsSubsequence(part, whole[1..])
                                   || (part[0] == whole[0] && IsSubsequence(part[1..], whole[1..]))))
  }

  lemma {:induction false} SelectKeepsOrder(items: seq<Entry>, allowed: set<Text>)
    ensures IsSubsequence(Select(items, allowed), items)
  {
    if items != [] {
      SelectKeepsOrder(items[1..], allowed);
      var rest := Select(items[1..], allowed);
      if items[0].uri in allowed {
        assert Select(items, allowed)[1..] == rest;
      } else {
        assert Select(items, allowed) == rest;
      }
    }
  }

  lemma {:induction false} SelectKeepsCounts(items: seq<Entry>, allowed: set<Text>, e: Entry)
    ensures multiset(Select(items, allowed))[e] == if e.uri in allowed then multiset(items)[e] else 0
  {
    if items != [] {
      SelectKeepsCounts(items[1..], allowed, e);
      assert items == [items[0]] + items[1..];
    }
  }
}
