/**
 The pages of an index relation, the free space map, and the page operations of a buffer.

 A page is one value holding the three things the code keeps on pages: a list header, raw bytes,
 or items.  Pages change in place: every update replaces the page at its block number.
 */
module Storage {
  import opened Wrappers
  import opened BitPacking
  import opened Block

  datatype Page =
    | NewPage
    | Page(list: Option<LinkedListData>, data: seq<Byte>, items: seq<SegmentMetaEntry>,
           next: BlockNo, xmax: Xid)
  {
    /** `PageHeaderMethods::free_space`, for a page that holds bytes. */
    function FreeSpace(): int
      requires Page?
    { ITEM_SIZE - |data| }

    predicate CanFit(len: nat)
      requires Page?
    { |data| + len <= ITEM_SIZE }

    /** `append_bytes`: `None` when the bytes do not fit and nothing was written. */
    function AppendBytes(bytes: seq<Byte>): Option<Page>
      requires Page?
    { if CanFit(|bytes|) then Some(this.(data := data + bytes)) else None }

    function MarkDeleted(nextXid: Xid): Page
      requires Page?
    { this.(xmax := nextXid) }

    /** `BM25Page::recyclable`. */
    predicate Recyclable(snap: Snapshot, horizon: Xid) {
      if NewPage? then true
      else if xmax == INVALID_XID then false
      else if XidInMVCCSnapshot(xmax, snap) then false
      else xmax < horizon
    }

    /** In use by a list: initialised and not marked deleted. */
    predicate InUse() { Page? && xmax == INVALID_XID }
  }

  const FreshPage := Page(None, [], [], INVALID_BLOCK, INVALID_XID)

  type Pages = map<BlockNo, Page>

  /** `blocks` are the pages of one singly linked list, in order, all in use. */
  ghost predicate Linked(pages: Pages, blocks: seq<BlockNo>) {
    && Distinct(blocks)
    && InUse(pages, blocks)
    && (forall i :: 0 <= i < |blocks| ==> pages[blocks[i]].next == NextOf(blocks, i))
  }

  ghost predicate Distinct(blocks: seq<BlockNo>) {
    forall i, j :: 0 <= i < j < |blocks| ==> blocks[i] != blocks[j]
  }

  ghost predicate InUse(pages: Pages, blocks: seq<BlockNo>) {
    forall i :: 0 <= i < |blocks| ==>
      blocks[i] in pages && pages[blocks[i]].InUse() && 0 < blocks[i] < INVALID_BLOCK
  }

  ghost function NextOf(blocks: seq<BlockNo>, i: nat): BlockNo
    requires i < |blocks|
  {
    if i + 1 < |blocks| then blocks[i + 1] else INVALID_BLOCK
  }

  /** What the pages of a list hold, page by page. */
  ghost function Datas(pages: Pages, blocks: seq<BlockNo>): (datas: seq<seq<Byte>>)
    requires InUse(pages, blocks)
    ensures |datas| == |blocks|
  {
    seq(|blocks|, i requires 0 <= i < |blocks| => pages[blocks[i]].data)
  }

  /** From `before` to `after` only `blocks` changed, and none of them was in use before. */
  ghost predicate OnlyFresh(before: Pages, after: Pages, blocks: seq<BlockNo>) {
    && Untouched(before, after, blocks)
    && (forall b :: b in blocks && b in before ==> !before[b].InUse())
  }

  ghost predicate Untouched(before: Pages, after: Pages, blocks: seq<BlockNo>) {
    forall b :: b in before && b !in blocks ==> b in after && after[b] == before[b]
  }

  class Relation {
    var pages: Pages
    var nblocks: nat
    var freeSpaceMap: set<BlockNo>

    // What the backend knows of the other transactions: the pages they have locked, its active snapshot, the
    // oldest id that may still matter to someone, and the next id to be handed out.
    var locked: set<BlockNo>
    var snapshot: Snapshot
    var horizon: Xid
    var nextXid: Xid

    ghost predicate Valid()
      reads this
    {
      && 0 < nblocks <= INVALID_BLOCK
      && (forall b: BlockNo :: b in pages <==> b < nblocks)
      && freeSpaceMap <= pages.Keys
      && pages[0].InUse()
      && nextXid >= FIRST_NORMAL_XID && horizon <= nextXid
    }

    predicate IsRecyclable(p: Page)
      reads this
    {
      p.Recyclable(snapshot, horizon)
    }

    /** Postgres cannot extend a relation past the largest block number. */
    ghost predicate Full()
      reads this
    {
      nblocks == INVALID_BLOCK
    }

    /**
     A recyclable page off the free space map, or else a new page at the end.  No page in use is
     ever handed out, whatever the free space map says.
     */
    method NewBuffer() returns (r: Result<BlockNo>)
      requires Valid()
      modifies this`pages, this`nblocks, this`freeSpaceMap
      ensures Valid()
      ensures r.Failure? ==> Full() && pages == old(pages)
      ensures r.Success? ==>
        && 0 < r.value < INVALID_BLOCK
        && r.value in pages && r.value !in freeSpaceMap
        && freeSpaceMap <= old(freeSpaceMap)
        && (r.value in old(pages) ==>
              r.value in old(freeSpaceMap) && r.value !in locked && IsRecyclable(old(pages)[r.value])
              && pages == old(pages))
        && (r.value !in old(pages) ==> pages == old(pages)[r.value := NewPage])
      // the relation grows only if nothing recyclable is to be had
      ensures r.Failure? || r.value !in old(pages) ==>
        && freeSpaceMap == {}
        && forall b :: b in old(freeSpaceMap) && b !in locked ==> !IsRecyclable(old(pages)[b])
    {
      while freeSpaceMap != {}
        invariant Valid() && pages == old(pages) && nblocks == old(nblocks)
        invariant freeSpaceMap <= old(freeSpaceMap)
        invariant forall b :: b in old(freeSpaceMap) - freeSpaceMap && b !in locked ==> !IsRecyclable(pages[b])
        decreases |freeSpaceMap|
      {
        var b :| b in freeSpaceMap;
        freeSpaceMap := freeSpaceMap - {b};
        // the conditional lock
        if b !in locked {
          if IsRecyclable(pages[b]) {
            return Success(b);
          }
        }
      }
      if nblocks == INVALID_BLOCK {
        return Failure(RelationFull);
      }
      var b: BlockNo := nblocks;
      pages := pages[b := NewPage];
      nblocks := nblocks + 1;
      return Success(b);
    }

    method InitPage(b: BlockNo)
      requires Valid() && b in pages && b != 0
      modifies this`pages
      ensures Valid() && pages == old(pages)[b := FreshPage]
    {
      pages := pages[b := FreshPage];
    }

    /** Writes back a page changed under its exclusive lock. */
    method Put(b: BlockNo, p: Page)
      requires Valid() && b in pages && b != 0
      modifies this`pages
      ensures Valid() && pages == old(pages)[b := p]
    {
      pages := pages[b := p];
    }

    /** Allocates a page and links it behind the last page of `blocks`. */
    method LinkNewPage(last: BlockNo, ghost blocks: seq<BlockNo>) returns (r: Result<BlockNo>)
      requires Valid() && Linked(pages, blocks) && blocks != [] && last == blocks[|blocks| - 1]
      modifies this`pages, this`nblocks, this`freeSpaceMap
      ensures Valid()
      ensures r.Failure? ==> Full() && pages == old(pages)
      ensures r.Success? ==>
        && Extended(old(pages), pages, blocks, r.value)
        && (r.value in old(pages) ==> IsRecyclable(old(pages)[r.value]))
    {
      var b :- NewBuffer();
      Put(last, pages[last].(next := b));
      InitPage(b);
      return Success(b);
    }

    /** The loop of `amvacuumcleanup`: every recyclable page goes to the free space map, and no other. */
    method VacuumCleanup()
      requires Valid()
      modifies this`freeSpaceMap
      ensures Valid()
      ensures freeSpaceMap == old(freeSpaceMap) + set b | b in pages && IsRecyclable(pages[b])
    {
      var blockno := 0;
      while blockno < nblocks
        invariant 0 <= blockno <= nblocks && Valid()
        invariant freeSpaceMap == old(freeSpaceMap) + set b | b in pages && b < blockno && IsRecyclable(pages[b])
      {
        if IsRecyclable(pages[blockno]) {
          freeSpaceMap := freeSpaceMap + {blockno};
        }
        blockno := blockno + 1;
      }
    }

    /** `mark_deleted`: the page's xmax becomes the next transaction id, which nobody has yet. */
    method MarkDeleted(b: BlockNo)
      requires Valid() && b in pages && b != 0 && pages[b].Page?
      modifies this`pages
      ensures Valid() && pages == old(pages)[b := old(pages)[b].(xmax := nextXid)]
      ensures !pages[b].InUse()
    {
      pages := pages[b := pages[b].MarkDeleted(nextXid)];
    }
  }

  /** What may be reused: a page never initialised, and one whose mark the horizon has passed.  No page in use,
      and every marked page once nobody may care any more. */
  lemma PageIsRecyclableIff(p: Page, snap: Snapshot, horizon: Xid)
    requires horizon <= snap.xmin
    ensures p.Recyclable(snap, horizon) <==> p == NewPage || (!p.InUse() && p.xmax < horizon)
  {}

  /** `mark_deleted` protects the page from every snapshot taken so far and every one still to come
      that regards a running transaction as running. */
  lemma MarkedPageIsProtected(p: Page, nextXid: Xid, snap: Snapshot, horizon: Xid)
    requires p.Page? && nextXid != INVALID_XID && horizon <= nextXid
    ensures !p.MarkDeleted(nextXid).Recyclable(snap, horizon)
  {}

  /** A list in use keeps its pages while others allocate. */
  lemma FreshIsNew(before: Pages, after: Pages, blocks: seq<BlockNo>, list: seq<BlockNo>)
    requires OnlyFresh(before, after, blocks) && InUse(before, list)
    ensures forall i :: 0 <= i < |list| ==> list[i] !in blocks
    ensures InUse(after, list) && Datas(after, list) == Datas(before, list)
    ensures Linked(before, list) ==> Linked(after, list)
  {}

  lemma ReplaceData(pages: Pages, blocks: seq<BlockNo>, i: nat, data: seq<Byte>)
    requires Linked(pages, blocks) && i < |blocks|
    ensures var after := pages[blocks[i] := pages[blocks[i]].(data := data)];
            Linked(after, blocks) && Datas(after, blocks) == Datas(pages, blocks)[i := data]
  {}

  /** A fresh page `b` linked behind the last of `blocks`, nothing else changed. */
  ghost predicate Extended(before: Pages, after: Pages, blocks: seq<BlockNo>, b: BlockNo)
    requires blocks != [] && blocks[|blocks| - 1] in before && before[blocks[|blocks| - 1]].Page?
  {
    var last := blocks[|blocks| - 1];
    && b !in blocks && 0 < b < INVALID_BLOCK
    && b in after && after[b] == FreshPage
    && last in after && after[last] == before[last].(next := b)
    && OnlyFresh(before[last := before[last].(next := b)], after, [b])
  }

  lemma ExtendedIsFresh(start: Pages, before: Pages, after: Pages, blocks: seq<BlockNo>, b: BlockNo)
    requires OnlyFresh(start, before, blocks)
    requires blocks != [] && blocks[|blocks| - 1] in before && before[blocks[|blocks| - 1]].Page?
    requires Extended(before, after, blocks, b)
    ensures OnlyFresh(start, after, blocks + [b])
  {}

  lemma ExtendedIsLinked(before: Pages, after: Pages, blocks: seq<BlockNo>, b: BlockNo)
    requires Linked(before, blocks) && blocks != [] && Extended(before, after, blocks, b)
    ensures Linked(after, blocks + [b])
    ensures Datas(after, blocks + [b]) == Datas(before, blocks) + [[]]
  {
    hide NextOf;
    forall i | 0 <= i < |blocks|
      ensures NextOf(blocks + [b], i) == if i + 1 < |blocks| then NextOf(blocks, i) else b
    {
      NextOfAppended(blocks, b, i);
    }
    NextOfLast(blocks + [b]);
  }

  lemma NextOfAppended(blocks: seq<BlockNo>, b: BlockNo, i: nat)
    requires i < |blocks|
    ensures NextOf(blocks + [b], i) == if i + 1 < |blocks| then NextOf(blocks, i) else b
  {}

  lemma NextOfLast(blocks: seq<BlockNo>)
    requires blocks != []
    ensures NextOf(blocks, |blocks| - 1) == INVALID_BLOCK
  {}

  /**
   Pages in use that are neither the header nor the list's are as they were, and have not become
   the list's.
   */
  ghost predicate Bystanders(before: Pages, after: Pages, header: BlockNo, chain: seq<BlockNo>,
                             chain': seq<BlockNo>)
  {
    forall b :: b in before && before[b].InUse() && b != header && b !in chain ==>
      b !in chain' && b in after && after[b] == before[b]
  }

  lemma BystandersOfNothing(pages: Pages, header: BlockNo, chain: seq<BlockNo>)
    ensures Bystanders(pages, pages, header, chain, chain)
  {}

  lemma BystandersTransitive(p0: Pages, p1: Pages, p2: Pages, header: BlockNo, c0: seq<BlockNo>,
                             c1: seq<BlockNo>, c2: seq<BlockNo>)
    requires Bystanders(p0, p1, header, c0, c1) && Bystanders(p1, p2, header, c1, c2)
    ensures Bystanders(p0, p2, header, c0, c2)
  {}

  lemma BystandersOfExtending(start: Pages, before: Pages, mid: Pages, header: BlockNo,
                              c0: seq<BlockNo>, chain: seq<BlockNo>, b: BlockNo)
    requires Bystanders(start, before, header, c0, chain)
    requires Linked(before, chain) && chain != [] && Extended(before, mid, chain, b)
    ensures Bystanders(start, mid, header, c0, chain + [b])
  {}

  lemma BystandersOfPut(start: Pages, pages: Pages, header: BlockNo, c0: seq<BlockNo>,
                        chain: seq<BlockNo>, b: BlockNo, p: Page)
    requires Bystanders(start, pages, header, c0, chain) && (b in chain || b == header)
    ensures Bystanders(start, pages[b := p], header, c0, chain)
  {}

  // What others count on, deleted or not, while a list grows: for pages in use this is `Bystanders`.

  /** Pages that cannot be recycled yet, other than the header and the list's, are as they were, and have not
      become the list's. */
  ghost predicate Spares(before: Pages, after: Pages, header: BlockNo, chain: seq<BlockNo>, chain': seq<BlockNo>,
                         snap: Snapshot, horizon: Xid)
  {
    forall b :: b in before && !before[b].Recyclable(snap, horizon) && b != header && b !in chain ==>
      b !in chain' && b in after && after[b] == before[b]
  }

  lemma SparesNothing(pages: Pages, header: BlockNo, chain: seq<BlockNo>, snap: Snapshot, horizon: Xid)
    ensures Spares(pages, pages, header, chain, chain, snap, horizon)
  {}

  lemma SparesTransitive(p0: Pages, p1: Pages, p2: Pages, header: BlockNo, c0: seq<BlockNo>, c1: seq<BlockNo>,
                         c2: seq<BlockNo>, snap: Snapshot, horizon: Xid)
    requires Spares(p0, p1, header, c0, c1, snap, horizon) && Spares(p1, p2, header, c1, c2, snap, horizon)
    ensures Spares(p0, p2, header, c0, c2, snap, horizon)
  {}

  lemma SparesExtending(before: Pages, mid: Pages, header: BlockNo, chain: seq<BlockNo>, b: BlockNo, snap: Snapshot,
                        horizon: Xid)
    requires Linked(before, chain) && chain != [] && Extended(before, mid, chain, b)
    requires b in before ==> before[b].Recyclable(snap, horizon)
    ensures Spares(before, mid, header, chain, chain + [b], snap, horizon)
  {}

  lemma SparesPut(start: Pages, pages: Pages, header: BlockNo, c0: seq<BlockNo>, chain: seq<BlockNo>, b: BlockNo,
                  p: Page, snap: Snapshot, horizon: Xid)
    requires Spares(start, pages, header, c0, chain, snap, horizon) && (b in chain || b == header)
    ensures Spares(start, pages[b := p], header, c0, chain, snap, horizon)
  {}

  lemma SparesBystanders(before: Pages, after: Pages, header: BlockNo, chain: seq<BlockNo>, chain': seq<BlockNo>,
                         snap: Snapshot, horizon: Xid)
    requires Spares(before, after, header, chain, chain', snap, horizon)
    ensures Bystanders(before, after, header, chain, chain')
  {}
}
