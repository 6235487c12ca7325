/**
 A linked list of pages of segment entries: appending, looking up, and garbage collection that
 relinks the pages it leaves.
 */
module LinkedItems {
  import opened Wrappers
  import opened Block
  import opened Storage

  type Items = seq<SegmentMetaEntry>

  // ---------------------------------------------------------------------------------------------
  // Space on a page of items
  // ---------------------------------------------------------------------------------------------

  /** What an item takes: a line pointer, and its bytes aligned. */
  function ItemCost(e: SegmentMetaEntry): nat {
    4 + (e.ByteLen() + 7) / 8 * 8
  }

  function Used(items: Items): nat {
    if items == [] then 0 else Used(items[..|items| - 1]) + ItemCost(items[|items| - 1])
  }

  predicate Fits(items: Items) { Used(items) <= ITEM_SIZE }

  /** `append_item`: `None` when there is no room. */
  function AppendItem(items: Items, e: SegmentMetaEntry): Option<Items> {
    if Fits(items + [e]) then Some(items + [e]) else None
  }

  /** `replace_item`: `None` when the new version is longer than the old and there is no room. */
  function ReplaceItem(items: Items, offset: nat, e: SegmentMetaEntry): Option<Items>
    requires offset < |items|
  {
    if ItemCost(e) <= ItemCost(items[offset]) || Fits(items[offset := e]) then Some(items[offset := e]) else None
  }

  function DeleteItem(items: Items, offset: nat): Items
    requires offset < |items|
  {
    items[..offset] + items[offset + 1..]
  }

  /** Every entry fits on an empty page. */
  lemma OneFits(e: SegmentMetaEntry)
    ensures AppendItem([], e) == Some([e])
  {
    assert Used([e]) == Used([]) + ItemCost(e);
  }

  // ---------------------------------------------------------------------------------------------
  // Lists
  // ---------------------------------------------------------------------------------------------

  ghost predicate ItemLayout(pages: Pages, header: BlockNo, chain: seq<BlockNo>) {
    && chain != [] && Linked(pages, chain)
    && 0 < header < INVALID_BLOCK && header in pages && pages[header].InUse() && header !in chain
    && pages[header].list.Some? && pages[header].list.value.startBlockno == chain[0]
  }

  /** The items, page by page. */
  ghost function Contents(pages: Pages, chain: seq<BlockNo>): (contents: seq<Items>)
    ensures |contents| == |chain|
  {
    seq(|chain|, i requires 0 <= i < |chain| => ItemsAt(pages, chain[i]))
  }

  ghost function ItemsAt(pages: Pages, b: BlockNo): Items {
    if b in pages && pages[b].Page? then pages[b].items else []
  }

  ghost function AllItems(contents: seq<Items>): multiset<SegmentMetaEntry> {
    if contents == [] then multiset{}
    else AllItems(contents[..|contents| - 1]) + multiset(contents[|contents| - 1])
  }

  lemma {:induction false} AllItemsAdd(contents: seq<Items>, i: nat, e: SegmentMetaEntry)
    requires i < |contents|
    ensures AllItems(contents[i := contents[i] + [e]]) == AllItems(contents) + multiset{e}
  {
    var n := |contents| - 1;
    var after := contents[i := contents[i] + [e]];
    if i < n {
      assert after[..n] == contents[..n][i := contents[i] + [e]];
      AllItemsAdd(contents[..n], i, e);
    } else {
      assert after[..n] == contents[..n];
    }
  }

  lemma AllItemsEmptyPage(contents: seq<Items>)
    ensures AllItems(contents + [[]]) == AllItems(contents)
  {
    assert (contents + [[]])[..|contents|] == contents;
  }

  /** No page lost an item or had one moved; pages were only added behind. */
  ghost predicate Grown(before: seq<Items>, after: seq<Items>) {
    |before| <= |after| && forall i :: 0 <= i < |before| ==> before[i] <= after[i]
  }

  /** `items` were added to `before`, each once, on pages from `from` on. */
  ghost predicate Added(before: seq<Items>, after: seq<Items>, items: Items, from: nat) {
    && Grown(before, after)
    && AllItems(after) == AllItems(before) + multiset(items)
    && (forall i :: 0 <= i < from && i < |before| ==> after[i] == before[i])
  }

  lemma AddedNothing(before: seq<Items>, from: nat)
    ensures Added(before, before, [], from)
  {}

  lemma AddedOne(before: seq<Items>, after: seq<Items>, items: Items, n: nat, i: nat, from: nat)
    requires n < |items| && Added(before, after, items[..n], from) && from <= i < |after|
    ensures Added(before, after[i := after[i] + [items[n]]], items[..n + 1], from)
  {
    hide AllItems;
    AllItemsAdd(after, i, items[n]);
    assert items[..n + 1] == items[..n] + [items[n]];
  }

  lemma AddedPage(before: seq<Items>, after: seq<Items>, items: Items, from: nat)
    requires Added(before, after, items, from)
    ensures Added(before, after + [[]], items, from)
  {
    AllItemsEmptyPage(after);
  }

  lemma SetItems(pages: Pages, header: BlockNo, chain: seq<BlockNo>, i: nat, items: Items)
    requires ItemLayout(pages, header, chain) && i < |chain|
    ensures var after := pages[chain[i] := pages[chain[i]].(items := items)];
            && ItemLayout(after, header, chain)
            && Contents(after, chain) == Contents(pages, chain)[i := items]
            && (forall b :: b in pages && b != chain[i] ==> b in after && after[b] == pages[b])
  {}

  /** The header names the last page linked, and counts the pages. */
  ghost predicate Counted(before: Pages, after: Pages, header: BlockNo, chain: seq<BlockNo>, longer: seq<BlockNo>) {
    && header in before && before[header].Page? && before[header].list.Some? && header in after
    && |chain| <= |longer|
    && var data := before[header].list.value;
       after[header] == before[header].(list := Some(data.(
         lastBlockno := if |chain| == |longer| then data.lastBlockno else longer[|longer| - 1],
         npages := data.npages + |longer| - |chain|)))
  }

  class LinkedItemList {
    const rel: Relation
    const headerBlockno: BlockNo

    ghost var chain: seq<BlockNo>

    ghost predicate Valid()
      reads this, rel
    {
      rel.Valid() && ItemLayout(rel.pages, headerBlockno, chain)
    }

    constructor (rel: Relation, headerBlockno: BlockNo, ghost chain: seq<BlockNo>)
      ensures this.rel == rel && this.headerBlockno == headerBlockno && this.chain == chain
    {
      this.rel, this.headerBlockno, this.chain := rel, headerBlockno, chain;
    }

    static method Create(rel: Relation) returns (r: Result<LinkedItemList>)
      requires rel.Valid()
      modifies rel`pages, rel`nblocks, rel`freeSpaceMap
      ensures rel.Valid()
      ensures r.Failure? ==> rel.Full()
      ensures r.Success? ==>
        var list := r.value;
        && fresh(list) && list.rel == rel && list.Valid()
        && Contents(rel.pages, list.chain) == [[]]
        && rel.pages[list.headerBlockno].list == Some(LinkedListData(list.chain[0], list.chain[0], 0, INVALID_BLOCK))
        && OnlyFresh(old(rel.pages), rel.pages, [list.headerBlockno] + list.chain)
    {
      hide ItemLayout, Contents;
      var header :- rel.NewBuffer();
      var start :- rel.NewBuffer();
      rel.InitPage(header);
      rel.InitPage(start);
      var metadata := LinkedListData(start, start, 0, INVALID_BLOCK);
      rel.Put(header, rel.pages[header].(list := Some(metadata)));
      CreatedItems(rel.pages, header, start, metadata);
      var list := new LinkedItemList(rel, header, [start]);
      return Success(list);
    }

    function StartBlockno(): BlockNo
      requires Valid()
      reads this, rel
    {
      rel.pages[headerBlockno].list.value.startBlockno
    }

    // -------------------------------------------------------------------------------------------
    // Appending
    // -------------------------------------------------------------------------------------------

    /** Links a fresh page behind the last one and counts it in the header. */
    method NewPage(last: BlockNo) returns (r: Result<BlockNo>)
      requires Valid() && last == chain[|chain| - 1]
      modifies this`chain, rel`pages, rel`nblocks, rel`freeSpaceMap
      ensures rel.Valid()
      ensures r.Failure? ==> rel.Full()
      ensures r.Success? ==>
        && Valid() && chain == old(chain) + [r.value]
        && Contents(rel.pages, chain) == Contents(old(rel.pages), old(chain)) + [[]]
        && Counted(old(rel.pages), rel.pages, headerBlockno, old(chain), chain)
        && Spares(old(rel.pages), rel.pages, headerBlockno, old(chain), chain, rel.snapshot, rel.horizon)
    {
      hide Linked, Spares, Distinct;
      ghost var before := rel.pages;
      var newBlockno :- rel.LinkNewPage(last, chain);
      NewPageLinked(before, rel.pages, headerBlockno, chain, newBlockno);
      ghost var mid := rel.pages;
      var metadata := rel.pages[headerBlockno].list.value;
      rel.Put(headerBlockno, rel.pages[headerBlockno].(
        list := Some(metadata.(lastBlockno := newBlockno, npages := metadata.npages + 1))));
      SparesExtending(before, mid, headerBlockno, chain, newBlockno, rel.snapshot, rel.horizon);
      SparesPut(before, mid, headerBlockno, chain, chain + [newBlockno], headerBlockno, rel.pages[headerBlockno],
                rel.snapshot, rel.horizon);
      HeaderPut(mid, headerBlockno, chain + [newBlockno], rel.pages[headerBlockno]);
      chain := chain + [newBlockno];
      return Success(newBlockno);
    }

    /**
     Adds every item once, on the first page with room from `held` on, or from the start page.  No
     item already there moves.
     */
    method AddItems(items: Items, held: Option<BlockNo>)
      returns (r: Result<()>, ghost from: nat)
      requires Valid() && (held.Some? ==> held.value in chain)
      modifies this`chain, rel`pages, rel`nblocks, rel`freeSpaceMap
      ensures rel.Valid()
      ensures r.Failure? ==> rel.Full()
      ensures r.Success? ==>
        && Valid() && old(chain) <= chain
        && Added(Contents(old(rel.pages), old(chain)), Contents(rel.pages, chain), items, from)
        && Counted(old(rel.pages), rel.pages, headerBlockno, old(chain), chain)
        && (if held.Some? then from < |old(chain)| && old(chain)[from] == held.value else from == 0)
        && Spares(old(rel.pages), rel.pages, headerBlockno, old(chain), chain, rel.snapshot, rel.horizon)
    {
      hide Linked, Spares, ItemLayout, Added, Contents, Used, Relation.Valid;
      SparesNothing(rel.pages, headerBlockno, chain, rel.snapshot, rel.horizon);
      StartOfChain(rel.pages, headerBlockno, chain);
      var block := if held.Some? then held.value else StartBlockno();
      from := 0;
      if held.Some? {
        from :| from < |chain| && chain[from] == held.value;
      }
      ghost var c := from;
      AddedNothing(Contents(rel.pages, chain), from);
      var n := 0;
      assert items[..0] == [];
      while n < |items|
        invariant 0 <= n <= |items|
        invariant Valid() && old(chain) <= chain && 0 <= c < |chain| && chain[c] == block
        invariant Added(Contents(old(rel.pages), old(chain)), Contents(rel.pages, chain), items[..n], from)
        invariant from <= c
        invariant Counted(old(rel.pages), rel.pages, headerBlockno, old(chain), chain)
        invariant Spares(old(rel.pages), rel.pages, headerBlockno, old(chain), chain, rel.snapshot, rel.horizon)
        decreases |items| - n, |chain| - c, |Contents(rel.pages, chain)[c]|
      {
        NextInChain(rel.pages, headerBlockno, chain, c);
        var page := rel.pages[block];
        var appended := AppendItem(page.items, items[n]);
        if appended.Some? {
          SetItems(rel.pages, headerBlockno, chain, c, appended.value);
          AddedOne(Contents(old(rel.pages), old(chain)), Contents(rel.pages, chain), items, n, c, from);
          SparesPut(old(rel.pages), rel.pages, headerBlockno, old(chain), chain, block,
                    page.(items := appended.value), rel.snapshot, rel.horizon);
          rel.Put(block, page.(items := appended.value));
          n := n + 1;
        } else if page.next != INVALID_BLOCK {
          c := c + 1;
          block := page.next;
        } else {
          OneFits(items[n]);
          AddedPage(Contents(old(rel.pages), old(chain)), Contents(rel.pages, chain), items[..n], from);
          ghost var p1, c1 := rel.pages, chain;
          block :- NewPage(block);
          SparesTransitive(old(rel.pages), p1, rel.pages, headerBlockno, old(chain), c1, chain,
                           rel.snapshot, rel.horizon);
          c := |chain| - 1;
        }
      }
      assert items[..n] == items;
      return Success(()), from;
    }

    // -------------------------------------------------------------------------------------------
    // Looking up
    // -------------------------------------------------------------------------------------------

    /** The first entry in list order that satisfies `cmp`, with its page and its place there. */
    method LookupEx(cmp: SegmentMetaEntry -> bool)
      returns (r: Option<(SegmentMetaEntry, BlockNo, nat)>, ghost at: nat)
      requires Valid()
      ensures r.None? ==> forall i, k :: 0 <= i < |chain| && 0 <= k < |Contents(rel.pages, chain)[i]| ==>
        !cmp(Contents(rel.pages, chain)[i][k])
      ensures r.Some? ==>
        var (e, b, k) := r.value;
        && at < |chain| && chain[at] == b && b in rel.pages && rel.pages[b].Page?
        && k < |rel.pages[b].items| && rel.pages[b].items[k] == e && cmp(e)
        && (forall j :: 0 <= j < k ==> !cmp(rel.pages[b].items[j]))
        && (forall i, j :: 0 <= i < at && 0 <= j < |Contents(rel.pages, chain)[i]| ==>
              !cmp(Contents(rel.pages, chain)[i][j]))
    {
      hide ItemLayout, Relation.Valid;
      StartOfChain(rel.pages, headerBlockno, chain);
      var blockno := StartBlockno();
      ghost var c := 0;
      while blockno != INVALID_BLOCK
        invariant c <= |chain| && blockno == (if c < |chain| then chain[c] else INVALID_BLOCK)
        invariant forall i, k :: 0 <= i < c && 0 <= k < |Contents(rel.pages, chain)[i]| ==>
          !cmp(Contents(rel.pages, chain)[i][k])
        decreases |chain| - c
      {
        NextInChain(rel.pages, headerBlockno, chain, c);
        var items := rel.pages[blockno].items;
        var found := FindItem(items, cmp);
        if found.Some? {
          return Some((items[found.value], blockno, found.value)), c;
        }
        blockno := rel.pages[blockno].next;
        c := c + 1;
      }
      NotInvalid(rel.pages, headerBlockno, chain);
      return None, 0;
    }
  }

  lemma NotInvalid(pages: Pages, header: BlockNo, chain: seq<BlockNo>)
    requires ItemLayout(pages, header, chain)
    ensures forall i :: 0 <= i < |chain| ==> chain[i] != INVALID_BLOCK
  {}

  /** `find_item`. */
  method FindItem(items: Items, cmp: SegmentMetaEntry -> bool) returns (r: Option<nat>)
    ensures r.None? ==> forall j :: 0 <= j < |items| ==> !cmp(items[j])
    ensures r.Some? ==> r.value < |items| && cmp(items[r.value])
                        && forall j :: 0 <= j < r.value ==> !cmp(items[j])
  {
    for i := 0 to |items|
      invariant forall j :: 0 <= j < i ==> !cmp(items[j])
    {
      if cmp(items[i]) {
        return Some(i);
      }
    }
    return None;
  }

  lemma NewPageLinked(before: Pages, after: Pages, header: BlockNo, chain: seq<BlockNo>, b: BlockNo)
    requires ItemLayout(before, header, chain) && Extended(before, after, chain, b)
    ensures ItemLayout(after, header, chain + [b])
    ensures Contents(after, chain + [b]) == Contents(before, chain) + [[]]
  {
    ExtendedIsLinked(before, after, chain, b);
  }

  lemma HeaderPut(pages: Pages, header: BlockNo, chain: seq<BlockNo>, p: Page)
    requires ItemLayout(pages, header, chain)
    requires p.InUse() && p.list.Some? && p.list.value.startBlockno == chain[0]
    ensures ItemLayout(pages[header := p], header, chain)
    ensures Contents(pages[header := p], chain) == Contents(pages, chain)
  {}

  lemma CreatedItems(pages: Pages, header: BlockNo, start: BlockNo, md: LinkedListData)
    requires 0 < header < INVALID_BLOCK && 0 < start < INVALID_BLOCK && header != start
    requires header in pages && pages[header] == FreshPage.(list := Some(md))
    requires start in pages && pages[start] == FreshPage && md.startBlockno == start
    ensures ItemLayout(pages, header, [start]) && Contents(pages, [start]) == [[]]
  {}

  lemma StartOfChain(pages: Pages, header: BlockNo, chain: seq<BlockNo>)
    requires ItemLayout(pages, header, chain)
    ensures chain != [] && header in pages && pages[header].Page? && pages[header].list.Some?
    ensures pages[header].list.value.startBlockno == chain[0]
  {}

  lemma NextInChain(pages: Pages, header: BlockNo, chain: seq<BlockNo>, c: nat)
    requires ItemLayout(pages, header, chain) && c < |chain|
    ensures chain[c] in pages && pages[chain[c]].Page? && chain[c] != 0
    ensures Contents(pages, chain)[c] == pages[chain[c]].items
    ensures pages[chain[c]].next == INVALID_BLOCK <==> c + 1 == |chain|
    ensures c + 1 < |chain| ==> pages[chain[c]].next == chain[c + 1]
  {}
}
