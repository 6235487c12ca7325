/**
 A byte string stored as a header page, a chain of data pages and, once flushed, a blocklist of the
 chain.
 */
module LinkedBytes {
  import opened Wrappers
  import opened BitPacking
  import opened Block
  import opened Storage
  import opened BlockList

  // ---------------------------------------------------------------------------------------------
  // Layout
  // ---------------------------------------------------------------------------------------------

  /** The header describes the chain, and every page but the last is completely full. */
  ghost predicate Layout(pages: Pages, header: BlockNo, md: LinkedListData, chain: seq<BlockNo>,
                         content: seq<Byte>)
  {
    && chain != [] && Linked(pages, chain)
    && HeaderIs(pages, header, md) && header !in chain
    && md.startBlockno == chain[0] && md.lastBlockno == chain[|chain| - 1] && md.npages == |chain|
    && Full(Datas(pages, chain))
    && content == Flatten(Datas(pages, chain))
  }

  ghost predicate HeaderIs(pages: Pages, header: BlockNo, md: LinkedListData) {
    && 0 < header < INVALID_BLOCK && header in pages && pages[header].InUse()
    && pages[header].list == Some(md)
  }

  ghost predicate Full(datas: seq<seq<Byte>>) {
    && (forall i :: 0 <= i < |datas| - 1 ==> |datas[i]| == ITEM_SIZE)
    && (datas != [] ==> |datas[|datas| - 1]| <= ITEM_SIZE)
  }

  /** No page is allocated before there is a byte to put on it. */
  ghost predicate Tight(pages: Pages, chain: seq<BlockNo>)
    requires InUse(pages, chain)
  {
    |chain| > 1 ==> pages[chain[|chain| - 1]].data != []
  }

  /** A list that was written, flushed and not touched since. */
  ghost predicate Stored(pages: Pages, header: BlockNo, chain: seq<BlockNo>, blocklist: seq<BlockNo>,
                         content: seq<Byte>)
  {
    && header in pages && pages[header].Page? && pages[header].list.Some?
    && var md := pages[header].list.value;
    && Layout(pages, header, md, chain, content)
    && Tight(pages, chain)
    && header !in blocklist && (forall b :: b in chain ==> b !in blocklist)
    && Indexed(pages, md.blocklistStart, chain, blocklist, content)
  }

  /** The blocklist reads back as the chain; an empty list has none. */
  ghost predicate Indexed(pages: Pages, start: BlockNo, chain: seq<BlockNo>, blocklist: seq<BlockNo>,
                          content: seq<Byte>)
  {
    if content == [] then start == INVALID_BLOCK && blocklist == []
    else blocklist != [] && start == blocklist[0] && Holds(pages, blocklist, chain)
  }

  /** Byte k of the content is on page k / ITEM_SIZE, at offset k % ITEM_SIZE. */
  lemma {:induction false} PageOfByte(datas: seq<seq<Byte>>, k: nat)
    requires Full(datas) && k < |Flatten(datas)|
    ensures k / ITEM_SIZE < |datas| && k % ITEM_SIZE < |datas[k / ITEM_SIZE]|
    ensures Flatten(datas)[k] == datas[k / ITEM_SIZE][k % ITEM_SIZE]
  {
    if k >= |datas[0]| {
      var rest := datas[1..];
      assert Full(rest);
      assert rest != [];
      PageOfByte(rest, k - ITEM_SIZE);
      assert (k - ITEM_SIZE) / ITEM_SIZE == k / ITEM_SIZE - 1;
      assert (k - ITEM_SIZE) % ITEM_SIZE == k % ITEM_SIZE;
    }
  }

  lemma {:induction false} FullLength(datas: seq<seq<Byte>>)
    requires Full(datas) && datas != []
    ensures |Flatten(datas)| == ITEM_SIZE * (|datas| - 1) + |datas[|datas| - 1]|
  {
    if |datas| > 1 {
      assert Full(datas[1..]);
      FullLength(datas[1..]);
    } else {
      assert Flatten(datas[1..]) == [];
    }
  }

  /** A stretch of the content that lies on one page is found there. */
  lemma PageSlice(datas: seq<seq<Byte>>, i: nat, offset: nat, len: nat)
    requires Full(datas) && offset + len <= ITEM_SIZE
    requires ITEM_SIZE * i + offset + len <= |Flatten(datas)| && len > 0
    ensures i < |datas| && offset + len <= |datas[i]|
    ensures datas[i][offset..offset + len] == Flatten(datas)[ITEM_SIZE * i + offset..ITEM_SIZE * i + offset + len]
  {
    var at, all := ITEM_SIZE * i + offset, Flatten(datas);
    PageOfByte(datas, at + len - 1);
    assert (at + len - 1) / ITEM_SIZE == i && (at + len - 1) % ITEM_SIZE == offset + len - 1;
    forall k | at <= k < at + len
      ensures all[k] == datas[i][k - at + offset]
    {
      PageOfByte(datas, k);
      assert k / ITEM_SIZE == i && k % ITEM_SIZE == k - at + offset;
    }
  }

  lemma {:induction false} FlattenLast(datas: seq<seq<Byte>>, more: seq<Byte>)
    requires datas != []
    ensures var n := |datas| - 1;
            Flatten(datas[n := datas[n] + more]) == Flatten(datas) + more
  {
    var n := |datas| - 1;
    var after := datas[n := datas[n] + more];
    FlattenAppend(datas[..n], [datas[n]]);
    FlattenAppend(datas[..n], [datas[n] + more]);
    assert datas == datas[..n] + [datas[n]];
    assert after == datas[..n] + [datas[n] + more];
    assert Flatten([datas[n]]) == datas[n] + [];
    assert Flatten([datas[n] + more]) == datas[n] + more + [];
  }

  // ---------------------------------------------------------------------------------------------
  // Steps of a write
  // ---------------------------------------------------------------------------------------------

  /** Bytes that fit go behind the last page's. */
  lemma WriteFits(pages: Pages, header: BlockNo, md: LinkedListData, chain: seq<BlockNo>,
                  content: seq<Byte>, more: seq<Byte>)
    requires Layout(pages, header, md, chain, content)
    requires pages[md.lastBlockno].CanFit(|more|)
    ensures var last := md.lastBlockno;
            var after := pages[last := pages[last].(data := pages[last].data + more)];
            && Layout(after, header, md, chain, content + more)
            && (more != [] ==> Tight(after, chain))
  {
    var datas, n := Datas(pages, chain), |chain| - 1;
    ReplaceData(pages, chain, n, datas[n] + more);
    FlattenLast(datas, more);
  }

  /** A full last page gets an empty one linked behind it, and the header follows. */
  lemma WriteExtends(before: Pages, mid: Pages, after: Pages, header: BlockNo, md: LinkedListData,
                     md': LinkedListData, chain: seq<BlockNo>, content: seq<Byte>, b: BlockNo)
    requires Layout(before, header, md, chain, content)
    requires |before[md.lastBlockno].data| == ITEM_SIZE
    requires Extended(before, mid, chain, b) && HeaderIs(mid, header, md)
    requires md' == md.(lastBlockno := b, npages := md.npages + 1)
    requires after == mid[header := mid[header].(list := Some(md'))]
    ensures Layout(after, header, md', chain + [b], content)
  {
    ExtendedIsLinked(before, mid, chain, b);
    var datas := Datas(before, chain);
    HeaderApart(mid, header, md, chain + [b], md');
    FlattenEmpty(datas);
    assert Full(datas + [[]]);
  }

  lemma FlattenEmpty(datas: seq<seq<Byte>>)
    ensures Flatten(datas + [[]]) == Flatten(datas)
  {
    FlattenAppend(datas, [[]]);
    var empty: seq<seq<Byte>> := [[]];
    assert Flatten(empty) == [];
  }

  lemma HeaderApart(pages: Pages, header: BlockNo, md: LinkedListData, chain: seq<BlockNo>,
                    md': LinkedListData)
    requires HeaderIs(pages, header, md) && Linked(pages, chain) && header !in chain
    ensures var after := pages[header := pages[header].(list := Some(md'))];
            && HeaderIs(after, header, md') && Linked(after, chain)
            && Datas(after, chain) == Datas(pages, chain)
  {}

  lemma HeaderSurvives(before: Pages, mid: Pages, header: BlockNo, md: LinkedListData,
                       chain: seq<BlockNo>, content: seq<Byte>, b: BlockNo)
    requires Layout(before, header, md, chain, content) && Extended(before, mid, chain, b)
    ensures HeaderIs(mid, header, md) && header != b && header !in chain
  {}

  /** Every block pushed so far, repeats removed, is the chain, or all of it but a last empty page. */
  ghost predicate Pushed(pushed: seq<BlockNo>, chain: seq<BlockNo>, all: bool)
    requires chain != []
  {
    if all then Dedup(pushed) == chain
    else Dedup(pushed) == chain[..|chain| - 1]
  }

  lemma PushLast(pushed: seq<BlockNo>, chain: seq<BlockNo>, all: bool)
    requires chain != [] && Distinct(chain) && Pushed(pushed, chain, all)
    ensures Pushed(pushed + [chain[|chain| - 1]], chain, true)
  {
    var b := chain[|chain| - 1];
    DedupPush(pushed, b);
    if pushed != [] {
      DedupLast(pushed);
    }
    assert chain == chain[..|chain| - 1] + [b];
  }

  // ---------------------------------------------------------------------------------------------
  // The list
  // ---------------------------------------------------------------------------------------------

  datatype RangeData = OnePage(bytes: seq<Byte>) | MultiPage(bytes: seq<Byte>)

  /** The bytes of a range that may reach past the end, or be empty or reversed. */
  function Slice(content: seq<Byte>, start: nat, end: nat): seq<Byte> {
    if start < end <= |content| then content[start..end]
    else if start < |content| < end then content[start..]
    else []
  }

  class LinkedBytesList {
    const rel: Relation
    const headerBlockno: BlockNo
    const builder: Builder
    var metadata: LinkedListData
    var blocklistReader: Option<seq<BlockNo>>
    var pageCache: map<BlockNo, seq<Byte>>

    ghost var chain: seq<BlockNo>
    ghost var blocklist: seq<BlockNo>
    ghost var content: seq<Byte>

    // A handle that is writing: its copy of the header is current, its builder has seen every
    // block it wrote to, and nothing was flushed yet.
    ghost predicate Writing()
      reads this, rel, builder
    {
      && rel.Valid() && builder.Valid()
      && Layout(rel.pages, headerBlockno, metadata, chain, content)
      && Tight(rel.pages, chain)
      && metadata.blocklistStart == INVALID_BLOCK
      && Pushed(builder.pushed, chain, content != [])
      && (content == [] ==> |chain| == 1)
    }

    // A handle on a stored list: its copy of the header, its blocklist and its cached pages agree
    // with the relation.
    ghost predicate Reading()
      reads this, rel
    {
      && rel.Valid()
      && Stored(rel.pages, headerBlockno, chain, blocklist, content)
      && rel.pages[headerBlockno].list == Some(metadata)
      && (blocklistReader.Some? ==> blocklistReader.value == if content == [] then [] else chain)
      && (forall b :: b in pageCache ==> b in chain && pageCache[b] == rel.pages[b].data)
    }

    constructor (rel: Relation, headerBlockno: BlockNo, metadata: LinkedListData,
                 ghost chain: seq<BlockNo>, ghost blocklist: seq<BlockNo>, ghost content: seq<Byte>)
      ensures this.rel == rel && this.headerBlockno == headerBlockno && this.metadata == metadata
      ensures this.chain == chain && this.blocklist == blocklist && this.content == content
      ensures fresh(builder) && builder.Valid() && builder.pushed == []
      ensures blocklistReader == None && pageCache == map[]
    {
      this.rel, this.headerBlockno, this.metadata := rel, headerBlockno, metadata;
      this.chain, this.blocklist, this.content := chain, blocklist, content;
      builder := new Builder();
      blocklistReader, pageCache := None, map[];
    }

    static method Create(rel: Relation) returns (r: Result<LinkedBytesList>)
      requires rel.Valid()
      modifies rel`pages, rel`nblocks, rel`freeSpaceMap
      ensures rel.Valid()
      ensures r.Failure? ==> rel.Full()
      ensures r.Success? ==>
        var list := r.value;
        && fresh(list) && fresh(list.builder) && list.rel == rel
        && list.Writing() && list.content == [] && list.blocklist == []
        && OnlyFresh(old(rel.pages), rel.pages, [list.headerBlockno] + list.chain)
    {
      hide Layout, Linked, Datas, Full, Flatten, Dedup, Pushed, Tight, AllBehind, Builder.Valid;
      var header :- rel.NewBuffer();
      var start :- rel.NewBuffer();
      rel.InitPage(header);
      rel.InitPage(start);
      var metadata := LinkedListData(start, start, 1, INVALID_BLOCK);
      rel.Put(header, rel.pages[header].(list := Some(metadata)));
      var list := new LinkedBytesList(rel, header, metadata, [start], [], []);
      CreatedLayout(rel.pages, header, start, metadata);
      return Success(list);
    }

    /** `open`, on any list: of a list that was flushed and not deleted, everything can be read. */
    static method Open(rel: Relation, headerBlockno: BlockNo, ghost chain: seq<BlockNo>,
                       ghost blocklist: seq<BlockNo>, ghost content: seq<Byte>)
      returns (list: LinkedBytesList)
      requires rel.Valid() && headerBlockno in rel.pages && rel.pages[headerBlockno].Page?
      requires rel.pages[headerBlockno].list.Some?
      ensures fresh(list) && list.rel == rel && list.headerBlockno == headerBlockno
      ensures list.metadata == rel.pages[headerBlockno].list.value
      ensures list.chain == chain && list.blocklist == blocklist && list.content == content
      ensures Stored(rel.pages, headerBlockno, chain, blocklist, content) ==> list.Reading()
    {
      list := new LinkedBytesList(rel, headerBlockno, rel.pages[headerBlockno].list.value,
                                  chain, blocklist, content);
    }

    /** The step of `write` that finds the last page full. */
    method ExtendChain(ghost start: Pages, ghost chain0: seq<BlockNo>) returns (r: Result<BlockNo>)
      requires rel.Valid() && Layout(rel.pages, headerBlockno, metadata, chain, content)
      requires |rel.pages[metadata.lastBlockno].data| == ITEM_SIZE
      requires Bystanders(start, rel.pages, headerBlockno, chain0, chain)
      modifies this`metadata, this`chain, rel`pages, rel`nblocks, rel`freeSpaceMap
      ensures rel.Valid()
      ensures r.Failure? ==> rel.Full()
      ensures r.Success? ==>
        && chain == old(chain) + [r.value]
        && metadata == old(metadata).(lastBlockno := r.value, npages := old(metadata).npages + 1)
        && Layout(rel.pages, headerBlockno, metadata, chain, content)
        && rel.pages[r.value].data == []
        && Bystanders(start, rel.pages, headerBlockno, chain0, chain)
    {
      hide Layout, Linked, Bystanders;
      LayoutFacts(rel.pages, headerBlockno, metadata, chain, content);
      ghost var before := rel.pages;
      var newBlockno :- rel.LinkNewPage(metadata.lastBlockno, chain);
      ghost var mid := rel.pages;
      HeaderSurvives(before, mid, headerBlockno, metadata, chain, content, newBlockno);
      var metadata' := metadata.(lastBlockno := newBlockno, npages := metadata.npages + 1);
      rel.Put(headerBlockno, rel.pages[headerBlockno].(list := Some(metadata')));
      WriteExtends(before, mid, rel.pages, headerBlockno, metadata, metadata', chain, content, newBlockno);
      BystandersOfExtending(start, before, mid, headerBlockno, chain0, chain, newBlockno);
      BystandersOfPut(start, mid, headerBlockno, chain0, chain + [newBlockno], headerBlockno,
             mid[headerBlockno].(list := Some(metadata')));
      metadata := metadata';
      chain := chain + [newBlockno];
      return Success(newBlockno);
    }

    method Write(bytes: seq<Byte>) returns (r: Result<nat>)
      requires Writing()
      modifies this`metadata, this`chain, this`content, builder
      modifies rel`pages, rel`nblocks, rel`freeSpaceMap
      ensures rel.Valid()
      ensures r.Failure? ==> rel.Full()
      ensures r.Success? ==>
        && r.value == |bytes|
        && Writing() && content == old(content) + bytes
        && Bystanders(old(rel.pages), rel.pages, headerBlockno, old(chain), chain)
    {
      hide Layout, Linked, Tight, Pushed, Distinct, Bystanders, Builder.Valid, Relation.Valid;
      var bytesWritten := 0;
      var insertBlockno := metadata.lastBlockno;
      LayoutFacts(rel.pages, headerBlockno, metadata, chain, content);
      BystandersOfNothing(rel.pages, headerBlockno, chain);
      while bytesWritten < |bytes|
        invariant 0 <= bytesWritten <= |bytes|
        invariant rel.Valid() && builder.Valid()
        invariant Layout(rel.pages, headerBlockno, metadata, chain, content)
        invariant insertBlockno == metadata.lastBlockno && metadata.blocklistStart == INVALID_BLOCK
        invariant chain != [] && InUse(rel.pages, chain) && insertBlockno in chain
        invariant content == old(content) + bytes[..bytesWritten]
        invariant bytesWritten == |bytes| ==>
                    Tight(rel.pages, chain) && Pushed(builder.pushed, chain, content != [])
        invariant Pushed(builder.pushed, chain, true) || Pushed(builder.pushed, chain, false)
        invariant content == [] ==> |chain| == 1
        invariant Bystanders(old(rel.pages), rel.pages, headerBlockno, old(chain), chain)
        decreases |bytes| - bytesWritten, |rel.pages[insertBlockno].data|
      {
        LayoutFacts(rel.pages, headerBlockno, metadata, chain, content);
        PushLast(builder.pushed, chain, Pushed(builder.pushed, chain, true));
        builder.Push(insertBlockno);

        var page := rel.pages[insertBlockno];
        var freeSpace := page.FreeSpace();
        assert 0 <= freeSpace <= ITEM_SIZE;
        var bytesToWrite := if freeSpace < |bytes| - bytesWritten then freeSpace else |bytes| - bytesWritten;
        if bytesToWrite == 0 {
          PushedFront(builder.pushed, chain);
          insertBlockno :- ExtendChain(old(rel.pages), old(chain));
          LayoutFacts(rel.pages, headerBlockno, metadata, chain, content);
          continue;
        }
        var piece := bytes[bytesWritten..bytesWritten + bytesToWrite];
        WriteFits(rel.pages, headerBlockno, metadata, chain, content, piece);
        BystandersOfPut(old(rel.pages), rel.pages, headerBlockno, old(chain), chain, insertBlockno,
               page.(data := page.data + piece));
        rel.Put(insertBlockno, page.(data := page.data + piece));
        content := content + piece;
        bytesWritten := bytesWritten + bytesToWrite;
      }
      return Success(bytesWritten);
    }

    /** Writes the blocklist.  The handle's own copy of the header is left behind: reopen the list. */
    method Flush() returns (r: Result<()>)
      requires Writing()
      modifies this`blocklist, builder, rel`pages, rel`nblocks, rel`freeSpaceMap
      ensures rel.Valid()
      ensures r.Failure? ==> rel.Full()
      ensures r.Success? ==>
        && Stored(rel.pages, headerBlockno, chain, blocklist, content)
        && Bystanders(old(rel.pages), rel.pages, headerBlockno, chain, chain + blocklist)
    {
      hide Dedup, Layout, Stored, Holds, OnlyFresh, Bystanders, Linked, Tight;
      ghost var before := rel.pages;
      LayoutFacts(before, headerBlockno, metadata, chain, content);
      var start, list := builder.Finish(rel);
      if start.Failure? {
        return start.PropagateFailure();
      }
      blocklist := list;
      ghost var mid := rel.pages;
      PushedNothing(old(builder.pushed), chain);
      if start.value.Some? {
        HeaderStays(before, mid, headerBlockno, metadata, chain, list, content);
        rel.Put(headerBlockno, rel.pages[headerBlockno].(
          list := Some(rel.pages[headerBlockno].list.value.(blocklistStart := start.value.value))));
        FlushedLayout(before, mid, rel.pages, headerBlockno, metadata, chain, list, content);
      } else {
        FlushedNothing(rel.pages, headerBlockno, metadata, chain);
      }
      return Success(());
    }

    // -------------------------------------------------------------------------------------------
    // Reading
    // -------------------------------------------------------------------------------------------

    /** `block_for_ord`: decodes the blocklist the first time it is asked. */
    method BlockForOrd(ord: nat) returns (r: Option<BlockNo>)
      requires Reading()
      modifies this`blocklistReader
      ensures Reading()
      ensures r == if content != [] && ord < |chain| then Some(chain[ord]) else None
    {
      if blocklistReader.None? {
        blocklistReader := ReadBlockList(rel, metadata.blocklistStart, blocklist);
      }
      return if ord < |blocklistReader.value| then Some(blocklistReader.value[ord]) else None;
    }

    /** A range that lies on one page, out of the page cache. */
    method GetCachedRange(blockno: BlockNo, start: nat, end: nat) returns (r: RangeData)
      requires Reading() && blockno in chain
      requires start < end ==>
        start / ITEM_SIZE < |chain| && chain[start / ITEM_SIZE] == blockno
        && start % ITEM_SIZE + (end - start) <= ITEM_SIZE && end <= |content|
      modifies this`pageCache
      ensures Reading()
      ensures r == OnePage(Slice(content, start, end))
    {
      hide Stored;
      StoredFacts(rel.pages, headerBlockno, chain, blocklist, content);
      if blockno !in pageCache {
        pageCache := pageCache[blockno := rel.pages[blockno].data];
      }
      var page := pageCache[blockno];
      if end <= start {
        return OnePage([]);
      }
      var sliceStart := start % ITEM_SIZE;
      StoredRange(rel.pages, headerBlockno, chain, blocklist, content, start, end);
      return OnePage(page[sliceStart..sliceStart + (end - start)]);
    }

    /** Any range, page by page if it does not fit on one; `None` is the panic "block not found". */
    method GetBytesRange(start: nat, end: nat) returns (r: Option<RangeData>)
      requires Reading() && (start < end ==> end <= |content|)
      modifies this`blocklistReader, this`pageCache
      ensures Reading()
      ensures r.Some? <==> content != [] && start / ITEM_SIZE < |chain|
      ensures r.Some? ==> r.value.bytes == Slice(content, start, end)
    {
      hide Stored;
      var startBlockno := BlockForOrd(start / ITEM_SIZE);
      if startBlockno.None? {
        return None;
      }
      var blockno := startBlockno.value;
      var len := if start < end then end - start else 0;
      if start % ITEM_SIZE + len < ITEM_SIZE {
        var cached := GetCachedRange(blockno, start, end);
        return Some(cached);
      }
      var data := WalkRange(blockno, start, len);
      return Some(MultiPage(data));
    }

    /** The multi-page loop of `get_bytes_range`. */
    method WalkRange(first: BlockNo, start: nat, len: nat) returns (data: seq<Byte>)
      requires Stored(rel.pages, headerBlockno, chain, blocklist, content)
      requires start + len <= |content| && len > 0
      requires start / ITEM_SIZE < |chain| && first == chain[start / ITEM_SIZE]
      ensures data == content[start..start + len]
    {
      hide Stored, Linked;
      StoredFacts(rel.pages, headerBlockno, chain, blocklist, content);
      data := [];
      var blockno, remaining: nat := first, len;
      ghost var i := start / ITEM_SIZE;
      var startOffset := start % ITEM_SIZE;
      while |data| != len && blockno != INVALID_BLOCK
        invariant |data| + remaining == len && data == content[start..start + |data|]
        invariant i <= |chain| && blockno == (if i < |chain| then chain[i] else INVALID_BLOCK)
        invariant remaining > 0 ==> i < |chain|
        invariant remaining > 0 ==>
          start + |data| == ITEM_SIZE * i + if data == [] then startOffset else 0
        decreases |chain| - i
      {
        var sliceStart := if data == [] then startOffset else 0;
        var sliceLen := if ITEM_SIZE - sliceStart < remaining then ITEM_SIZE - sliceStart else remaining;
        StoredSlice(rel.pages, headerBlockno, chain, blocklist, content, i, sliceStart, sliceLen);
        data := data + rel.pages[blockno].data[sliceStart..sliceStart + sliceLen];
        blockno := rel.pages[blockno].next;
        remaining := remaining - sliceLen;
        i := i + 1;
        if remaining > 0 {
          StoredSlice(rel.pages, headerBlockno, chain, blocklist, content, i, 0, 1);
        }
      }
    }

    /** `read_all`: the concatenation of the pages. */
    method ReadAll() returns (bytes: seq<Byte>)
      requires Layout(rel.pages, headerBlockno, metadata, chain, content)
      ensures bytes == content
    {
      ghost var datas := Datas(rel.pages, chain);
      var blockno := metadata.startBlockno;
      bytes := [];
      ghost var i := 0;
      while blockno != INVALID_BLOCK
        invariant i <= |chain| && blockno == (if i < |chain| then chain[i] else INVALID_BLOCK)
        invariant bytes == Flatten(datas[..i])
        decreases |chain| - i
      {
        FlattenAppend(datas[..i], [datas[i]]);
        assert datas[..i + 1] == datas[..i] + [datas[i]];
        assert Flatten([datas[i]]) == datas[i] + [];
        bytes := bytes + rel.pages[blockno].data;
        blockno := rel.pages[blockno].next;
        i := i + 1;
      }
      assert datas[..i] == datas;
    }

    /** Empty is judged by the first page alone. */
    method IsEmpty() returns (empty: bool)
      requires Layout(rel.pages, headerBlockno, metadata, chain, content) && Tight(rel.pages, chain)
      ensures empty <==> content == []
    {
      FullLength(Datas(rel.pages, chain));
      empty := rel.pages[metadata.startBlockno].data == [];
    }

    // -------------------------------------------------------------------------------------------
    // Deletion
    // -------------------------------------------------------------------------------------------

    /** Marks the chain, the blocklist and the header, and nothing else; it may have been done before. */
    method MarkDeleted()
      requires rel.Valid() && Deletable(rel.pages, headerBlockno, chain, blocklist)
      requires rel.pages[headerBlockno].list == Some(metadata)
      modifies rel`pages
      ensures rel.Valid()
      ensures Marked(old(rel.pages), rel.pages, chain + blocklist + [headerBlockno], rel.nextXid)
    {
      ghost var p0 := rel.pages;
      MarkChain(metadata.startBlockno, chain);
      ghost var p1 := rel.pages;
      MarkChain(metadata.blocklistStart, blocklist);
      ghost var p2 := rel.pages;
      MarkedBoth(p0, p1, p2, chain, blocklist, rel.nextXid);
      rel.MarkDeleted(headerBlockno);
      MarkedBoth(p0, p2, rel.pages, chain + blocklist, [headerBlockno], rel.nextXid);
    }

    method MarkChain(start: BlockNo, ghost list: seq<BlockNo>)
      requires rel.Valid() && Chained(rel.pages, list)
      requires start == if list == [] then INVALID_BLOCK else list[0]
      modifies rel`pages
      ensures rel.Valid() && Marked(old(rel.pages), rel.pages, list, rel.nextXid)
    {
      var blockno := start;
      ghost var i := 0;
      while blockno != INVALID_BLOCK
        invariant rel.Valid() && i <= |list|
        invariant blockno == if i < |list| then list[i] else INVALID_BLOCK
        invariant MarkedUpTo(old(rel.pages), rel.pages, list, i, rel.nextXid)
        decreases |list| - i
      {
        var next := rel.pages[blockno].next;
        rel.MarkDeleted(blockno);
        blockno := next;
        i := i + 1;
      }
    }
  }

  /** Pages that follow one another, deleted or not. */
  ghost predicate Chained(pages: Pages, blocks: seq<BlockNo>) {
    && Distinct(blocks)
    && (forall i :: 0 <= i < |blocks| ==>
          && blocks[i] in pages && pages[blocks[i]].Page? && 0 < blocks[i] < INVALID_BLOCK
          && pages[blocks[i]].next == NextOf(blocks, i))
  }

  /** What is needed of a list to mark it deleted, once or again. */
  ghost predicate Deletable(pages: Pages, header: BlockNo, chain: seq<BlockNo>, blocklist: seq<BlockNo>) {
    && 0 < header < INVALID_BLOCK && header in pages && pages[header].Page? && pages[header].list.Some?
    && header !in chain && header !in blocklist && (forall b :: b in chain ==> b !in blocklist)
    && Chained(pages, chain) && Chained(pages, blocklist)
    && var md := pages[header].list.value;
    && md.startBlockno == (if chain == [] then INVALID_BLOCK else chain[0])
    && md.blocklistStart == (if blocklist == [] then INVALID_BLOCK else blocklist[0])
  }

  lemma StoredIsDeletable(pages: Pages, header: BlockNo, chain: seq<BlockNo>, blocklist: seq<BlockNo>,
                          content: seq<Byte>)
    requires Stored(pages, header, chain, blocklist, content)
    ensures Deletable(pages, header, chain, blocklist)
  {
    hide Full, Flatten, Tight, Dedup;
  }

  ghost predicate MarkedUpTo(before: Pages, after: Pages, list: seq<BlockNo>, i: nat, xid: Xid)
    requires Chained(before, list)
  {
    && after.Keys == before.Keys
    && (forall b :: b in before && b !in list ==> after[b] == before[b])
    && (forall k :: 0 <= k < |list| ==>
          after[list[k]] == if k < i then before[list[k]].MarkDeleted(xid) else before[list[k]])
  }

  /** `blocks` are marked deleted, every other page is as it was. */
  ghost predicate Marked(before: Pages, after: Pages, blocks: seq<BlockNo>, xid: Xid) {
    && after.Keys == before.Keys
    && Untouched(before, after, blocks)
    && (forall b :: b in blocks ==>
          b in before && before[b].Page? && after[b] == before[b].MarkDeleted(xid))
  }

  lemma MarkedBoth(p0: Pages, p1: Pages, p2: Pages, a: seq<BlockNo>, b: seq<BlockNo>, xid: Xid)
    requires Marked(p0, p1, a, xid) && Marked(p1, p2, b, xid)
    requires forall x :: x in a ==> x !in b
    ensures Marked(p0, p2, a + b, xid)
  {}

  lemma StoredFacts(pages: Pages, header: BlockNo, chain: seq<BlockNo>, blocklist: seq<BlockNo>,
                    content: seq<Byte>)
    requires Stored(pages, header, chain, blocklist, content)
    ensures Linked(pages, chain) && (forall i :: 0 <= i < |chain| ==> chain[i] != INVALID_BLOCK)
  {}

  lemma StoredSlice(pages: Pages, header: BlockNo, chain: seq<BlockNo>, blocklist: seq<BlockNo>,
                    content: seq<Byte>, i: nat, offset: nat, len: nat)
    requires Stored(pages, header, chain, blocklist, content)
    requires len > 0 && offset + len <= ITEM_SIZE && ITEM_SIZE * i + offset + len <= |content|
    ensures i < |chain| && chain[i] in pages && pages[chain[i]].Page?
    ensures pages[chain[i]].next == NextOf(chain, i)
    ensures offset + len <= |pages[chain[i]].data|
    ensures pages[chain[i]].data[offset..offset + len]
         == content[ITEM_SIZE * i + offset..ITEM_SIZE * i + offset + len]
  {
    hide Full, Flatten;
    PageSlice(Datas(pages, chain), i, offset, len);
  }

  lemma StoredRange(pages: Pages, header: BlockNo, chain: seq<BlockNo>, blocklist: seq<BlockNo>,
                    content: seq<Byte>, start: nat, end: nat)
    requires Stored(pages, header, chain, blocklist, content)
    requires start < end <= |content| && start % ITEM_SIZE + (end - start) <= ITEM_SIZE
    ensures start / ITEM_SIZE < |chain| && chain[start / ITEM_SIZE] in pages
    ensures var page := pages[chain[start / ITEM_SIZE]];
            && page.Page? && start % ITEM_SIZE + (end - start) <= |page.data|
            && page.data[start % ITEM_SIZE..start % ITEM_SIZE + (end - start)] == content[start..end]
  {
    hide Stored;
    assert start == ITEM_SIZE * (start / ITEM_SIZE) + start % ITEM_SIZE;
    StoredSlice(pages, header, chain, blocklist, content,
                start / ITEM_SIZE, start % ITEM_SIZE, end - start);
  }

  lemma PushedNothing(pushed: seq<BlockNo>, chain: seq<BlockNo>)
    requires chain != []
    ensures Pushed(pushed, chain, true) ==> pushed != []
    ensures |chain| == 1 && Pushed(pushed, chain, false) ==> pushed == []
  {
    if pushed != [] {
      DedupLast(pushed);
    }
  }

  lemma FlushedNothing(pages: Pages, header: BlockNo, md: LinkedListData, chain: seq<BlockNo>)
    requires Layout(pages, header, md, chain, []) && Tight(pages, chain) && md.blocklistStart == INVALID_BLOCK
    ensures Stored(pages, header, chain, [], []) && Bystanders(pages, pages, header, chain, chain + [])
  {}

  lemma HeaderStays(before: Pages, mid: Pages, header: BlockNo, md: LinkedListData, chain: seq<BlockNo>,
                    list: seq<BlockNo>, content: seq<Byte>)
    requires Layout(before, header, md, chain, content) && OnlyFresh(before, mid, list)
    ensures header !in list && header in mid && 0 < header && mid[header] == before[header]
    ensures mid[header].Page? && mid[header].list == Some(md)
  {
    hide Linked, Datas;
  }

  lemma FlushedLayout(before: Pages, mid: Pages, after: Pages, header: BlockNo, md: LinkedListData,
                      chain: seq<BlockNo>, list: seq<BlockNo>, content: seq<Byte>)
    requires Layout(before, header, md, chain, content) && Tight(before, chain) && content != []
    requires OnlyFresh(before, mid, list) && list != [] && Holds(mid, list, chain)
    requires header in mid && mid[header].Page?
    requires after == mid[header := mid[header].(list := Some(md.(blocklistStart := list[0])))]
    ensures Stored(after, header, chain, list, content)
    ensures Bystanders(before, after, header, chain, chain + list)
  {
    FreshIsNew(before, mid, list, chain);
    assert before[header].InUse() && mid[header] == before[header];
    var md' := md.(blocklistStart := list[0]);
    HeaderApart(mid, header, md, chain, md');
    HeaderApart(mid, header, md, list, md');
  }

  lemma CreatedLayout(pages: Pages, header: BlockNo, start: BlockNo, md: LinkedListData)
    requires 0 < header < INVALID_BLOCK && 0 < start < INVALID_BLOCK && header != start
    requires header in pages && pages[header] == FreshPage.(list := Some(md))
    requires start in pages && pages[start] == FreshPage
    requires md == LinkedListData(start, start, 1, INVALID_BLOCK)
    ensures Layout(pages, header, md, [start], []) && Tight(pages, [start])
    ensures Pushed([], [start], false)
  {
    var empty: seq<seq<Byte>> := [[]];
    assert Datas(pages, [start]) == empty && Flatten(empty) == [];
  }

  lemma LayoutFacts(pages: Pages, header: BlockNo, md: LinkedListData, chain: seq<BlockNo>,
                    content: seq<Byte>)
    requires Layout(pages, header, md, chain, content)
    ensures chain != [] && Distinct(chain) && InUse(pages, chain) && md.lastBlockno in chain
    ensures Linked(pages, chain)
    ensures |pages[md.lastBlockno].data| <= ITEM_SIZE
    ensures md.lastBlockno == chain[|chain| - 1]
    ensures |pages[md.lastBlockno].data| > 0 ==> content != []
    ensures |chain| > 1 ==> content != []
  {
    FullLength(Datas(pages, chain));
  }

  lemma PushedFront(pushed: seq<BlockNo>, chain: seq<BlockNo>)
    requires chain != [] && Pushed(pushed, chain, true)
    ensures forall b :: Pushed(pushed, chain + [b], false)
  {
    assert forall b :: (chain + [b])[..|chain|] == chain;
  }
}
