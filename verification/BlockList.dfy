/**
 A blocklist: the block numbers of a linked byte list, chunked, compressed and written to a list of
 pages of its own, so that the n-th block can be found without walking the chain.
 */
module BlockList {
  import opened Wrappers
  import opened BitPacking
  import opened Block
  import opened ChunkStyle
  import opened Storage

  // ---------------------------------------------------------------------------------------------
  // What a blocklist should hold
  // ---------------------------------------------------------------------------------------------

  /** The sequence with consecutive repeats removed. */
  ghost function Dedup(s: seq<BlockNo>): seq<BlockNo> {
    if |s| <= 1 then s
    else if s[|s| - 1] == s[|s| - 2] then Dedup(s[..|s| - 1])
    else Dedup(s[..|s| - 1]) + [s[|s| - 1]]
  }

  lemma {:induction false} DedupLast(s: seq<BlockNo>)
    requires s != []
    ensures Dedup(s) != [] && Dedup(s)[|Dedup(s)| - 1] == s[|s| - 1]
  {
    if |s| > 1 {
      DedupLast(s[..|s| - 1]);
    }
  }

  lemma DedupPush(s: seq<BlockNo>, b: BlockNo)
    ensures Dedup(s + [b]) ==
            if s != [] && s[|s| - 1] == b then Dedup(s) else Dedup(s) + [b]
  {
    assert (s + [b])[..|s|] == s;
  }

  /** Without repeats nothing is removed. */
  lemma {:induction false} DedupOfDistinct(s: seq<BlockNo>)
    requires Distinct(s)
    ensures Dedup(s) == s
  {
    if |s| > 1 {
      var front := s[..|s| - 1];
      assert Distinct(front);
      DedupOfDistinct(front);
      assert s == front + [s[|s| - 1]];
    }
  }

  /** What the reader makes of the pages of a blocklist; `None` if it panics. */
  ghost function DecodeDatas(datas: seq<seq<Byte>>): Option<seq<BlockNo>> {
    if datas == [] then Some([])
    else
      match DecodeDatas(datas[..|datas| - 1])
      case None => None
      case Some(blocks) =>
        match DecodePage(datas[|datas| - 1])
        case None => None
        case Some(more) => Some(blocks + more)
  }

  /** `list` is a chain of pages that reads back as `blocks`. */
  ghost predicate Holds(pages: Pages, list: seq<BlockNo>, blocks: seq<BlockNo>) {
    Linked(pages, list) && DecodeDatas(Datas(pages, list)) == Some(blocks)
  }

  // ---------------------------------------------------------------------------------------------
  // Builder
  // ---------------------------------------------------------------------------------------------

  function LastOf(s: seq<BlockNo>): Option<BlockNo> {
    if s == [] then None else Some(s[|s| - 1])
  }

  /** Every packed chunk starts from the last number of those before it. */
  ghost predicate AllBehind(chunks: seq<Chunk>)
    requires AllPackable(chunks)
  {
    forall k :: 0 <= k < |chunks| ==> IsBehind(chunks[k], ValuesOf(chunks[..k]))
  }

  ghost predicate IsBehind(c: Chunk, before: seq<BlockNo>) {
    c.Packed? ==> c.initial == (if before == [] then 0 else before[|before| - 1])
  }

  lemma BehindAppend(chunks: seq<Chunk>, c: Chunk)
    requires AllPackable(chunks + [c]) && AllPackable(chunks) && AllBehind(chunks) && IsBehind(c, ValuesOf(chunks))
    ensures AllBehind(chunks + [c])
  {
    hide ValuesOf, IsBehind;
    forall k | 0 <= k <= |chunks| ensures IsBehind((chunks + [c])[k], ValuesOf((chunks + [c])[..k])) {
      assert (chunks + [c])[..k] == chunks[..k];
      assert k == |chunks| ==> chunks[..k] == chunks;
    }
  }

  /** How many blocks of 128, of 32 and of fewer a queue is cut into. */
  function Cuts(n: nat): nat {
    n / 128 + n % 128 / 32 + (if n % 32 == 0 then 0 else 1)
  }

  class Builder {
    var chunks: seq<Chunk>
    var queue: seq<BlockNo>
    var lastChunkedBlockno: Option<BlockNo>

    ghost var pushed: seq<BlockNo>

    ghost predicate Valid()
      reads this
    {
      && AllPackable(chunks)
      && |queue| <= 128
      && (queue == [] ==> chunks == [] && pushed == [])
      && (queue != [] ==> pushed != [] && pushed[|pushed| - 1] == queue[|queue| - 1])
      && 0 !in queue
      && lastChunkedBlockno != Some(0) && lastChunkedBlockno == LastOf(ValuesOf(chunks))
      && AllBehind(chunks) && |ValuesOf(chunks)| == 128 * |chunks|
      && ValuesOf(chunks) + queue == Dedup(pushed)
    }

    constructor ()
      ensures Valid() && pushed == []
    {
      chunks, queue, lastChunkedBlockno, pushed := [], [], None, [];
    }

    method Push(b: BlockNo)
      requires Valid()
      requires b != 0  // asserted by the code
      modifies this
      ensures Valid() && pushed == old(pushed) + [b]
    {
      hide PackSlice, Chunk.Values, Dedup;
      pushed := pushed + [b];
      DedupPush(old(pushed), b);
      if queue != [] && queue[|queue| - 1] == b {
        return;
      }
      if |queue| == 128 {
        var c := PackSlice(X4, queue, lastChunkedBlockno);
        PackSliceRoundTrip(X4, queue, lastChunkedBlockno);
        ValuesOfAppend(chunks, [c]);
        ValuesOfOne(c);
        assert IsBehind(c, ValuesOf(chunks)) by { PackedBehind(X4, queue, lastChunkedBlockno, ValuesOf(chunks)); }
        BehindAppend(chunks, c);
        chunks := chunks + [c];
        lastChunkedBlockno := Some(queue[|queue| - 1]);
        queue := [];
      }
      queue := queue + [b];
    }

    /** The queue is cut into the largest blocks that fit; fewer than 32 numbers are left as they are. */
    method ChunkQueue()
      requires Valid()
      modifies this
      ensures AllPackable(chunks) && ValuesOf(chunks) == Dedup(pushed)
      ensures pushed == old(pushed) && (chunks == [] <==> pushed == [])
      ensures AllBehind(chunks) && |chunks| == |old(chunks)| + Cuts(|old(queue)|)
      // a queue that is cut without a rest is left as it is
      ensures queue == if |old(queue)| % 32 == 0 then old(queue) else []
    {
      hide PackSlice, Chunk.Values, Dedup, Cutting, Cuts, AllBehind, Lanes.BlockLen;
      ghost var all := Dedup(pushed);
      if pushed != [] {
        DedupLast(pushed);
      }
      var rest := queue;
      var last := lastChunkedBlockno;
      CutStart(chunks, rest, last, all);
      while |rest| >= 32
        invariant Cutting(chunks, rest, last, all) && pushed == old(pushed) && queue == old(queue)
        invariant pushed == [] ==> chunks == [] && rest == []
        invariant |chunks| + Cuts(|rest|) == |old(chunks)| + Cuts(|queue|)
        invariant |rest| % 32 == |queue| % 32
      {
        var lanes := if |rest| >= 256 then X8 else if |rest| >= 128 then X4 else X1;
        CutLen(chunks, lanes, rest, last, all);
        var head := rest[..lanes.BlockLen()];
        CutStep(chunks, lanes, rest, last, all);
        chunks := chunks + [PackSlice(lanes, head, last)];
        last := Some(head[|head| - 1]);
        rest := rest[lanes.BlockLen()..];
      }
      CutEnd(chunks, rest, last, all);
      if rest != [] {
        chunks := chunks + [Plain(rest)];
        queue := [];
      }
    }

    /**
     Writes the chunks to newly allocated pages, in order, as many to a page as fit.  Called once
     per list.  `None` when nothing was ever pushed.
     */
    method Finish(rel: Relation) returns (r: Result<Option<BlockNo>>, ghost list: seq<BlockNo>)
      requires Valid() && rel.Valid()
      modifies this, rel`pages, rel`nblocks, rel`freeSpaceMap
      ensures rel.Valid() && chunks == []
      ensures r.Failure? ==> rel.Full()
      ensures r.Success? ==> (r.value == None <==> old(pushed) == [])
      ensures r == Success(None) ==> list == [] && rel.pages == old(rel.pages)
      ensures r.Success? && r.value.Some? ==>
        && list != [] && list[0] == r.value.value
        && OnlyFresh(old(rel.pages), rel.pages, list)
        && Holds(rel.pages, list, Dedup(old(pushed)))
    {
      list := [];
      ChunkQueue();
      var todo := chunks;
      chunks := [];
      if todo == [] {
        return Success(None), [];
      }
      var starting :- rel.NewBuffer();
      rel.InitPage(starting);
      var filled;
      filled, list := FillPages(rel, starting, todo, old(rel.pages));
      if filled.Failure? {
        return filled.PropagateFailure(), list;
      }
      return Success(Some(starting)), list;
    }
  }

  /** Some pages of `list` are full and decode to `todo[..j]`; the last one holds `todo[j..k]`. */
  ghost predicate Filling(pages: Pages, list: seq<BlockNo>, todo: seq<Chunk>, j: nat, k: nat) {
    && j <= k <= |todo| && AllPackable(todo)
    && list != [] && Linked(pages, list)
    && var datas := Datas(pages, list);
    && datas[|datas| - 1] == EncodeAll(todo[j..k])
    && DecodeDatas(datas[..|datas| - 1]) == Some(ValuesOf(todo[..j]))
  }

  /** The page-filling loop of `finish`, from its first, empty page. */
  method FillPages(rel: Relation, starting: BlockNo, todo: seq<Chunk>, ghost before: Pages)
    returns (r: Result<()>, ghost list: seq<BlockNo>)
    requires rel.Valid() && todo != [] && AllPackable(todo)
    requires OnlyFresh(before, rel.pages, [starting]) && 0 < starting < INVALID_BLOCK
    requires starting in rel.pages && rel.pages[starting] == FreshPage
    modifies rel`pages, rel`nblocks, rel`freeSpaceMap
    ensures rel.Valid()
    ensures r.Failure? ==> rel.Full()
    ensures r.Success? ==>
      && list != [] && list[0] == starting
      && OnlyFresh(before, rel.pages, list)
      && Holds(rel.pages, list, ValuesOf(todo))
  {
    hide Chunk.IntoBytes, EncodeAll, ValuesOf, DecodeDatas, OnlyFresh, Extended, Filling;
    var block := starting;
    var k := 0;
    list := [starting];
    ghost var j := 0;
    FillStart(rel.pages, starting, todo);
    while k < |todo|
      invariant rel.Valid() && Filling(rel.pages, list, todo, j, k)
      invariant j <= k <= |todo| && (k == |todo| ==> j < k)
      invariant list != [] && list[0] == starting && block == list[|list| - 1]
      invariant OnlyFresh(before, rel.pages, list)
      decreases |todo| - k, if j == k then 0 else 1
    {
      FillFacts(rel.pages, list, todo, j, k);
      var page := rel.pages[block];
      if page.CanFit(todo[k].ByteLen()) {
        FillAppend(rel.pages, list, todo, j, k, before);
        // the code ignores whether `append_bytes` succeeded: it always does
        var appended := page.AppendBytes(todo[k].IntoBytes());
        rel.Put(block, appended.value);
        k := k + 1;
      } else {
        ghost var was := rel.pages;
        var next :- rel.LinkNewPage(block, list);
        FillExtend(was, rel.pages, list, todo, j, k, next);
        ExtendedIsFresh(before, was, rel.pages, list, next);
        list := list + [next];
        block := next;
        j := k;
      }
    }
    FillEnd(rel.pages, list, todo, j);
    r := Success(());
  }

  lemma FillStart(pages: Pages, starting: BlockNo, todo: seq<Chunk>)
    requires AllPackable(todo) && 0 < starting < INVALID_BLOCK
    requires starting in pages && pages[starting] == FreshPage
    ensures Filling(pages, [starting], todo, 0, 0)
  {
    assert Datas(pages, [starting]) == [[]];
  }

  lemma FillFacts(pages: Pages, list: seq<BlockNo>, todo: seq<Chunk>, j: nat, k: nat)
    requires Filling(pages, list, todo, j, k)
    ensures j <= k <= |todo| && AllPackable(todo)
    ensures list != [] && Linked(pages, list)
  {}

  lemma FillEnd(pages: Pages, list: seq<BlockNo>, todo: seq<Chunk>, j: nat)
    requires Filling(pages, list, todo, j, |todo|) && j < |todo|
    ensures Holds(pages, list, ValuesOf(todo))
  {
    ClosePage(todo, j, |todo|, Datas(pages, list));
    assert todo[..|todo|] == todo;
  }

  lemma FillAppend(pages: Pages, list: seq<BlockNo>, todo: seq<Chunk>, j: nat, k: nat, start: Pages)
    requires Filling(pages, list, todo, j, k) && k < |todo| && OnlyFresh(start, pages, list)
    ensures var last := list[|list| - 1];
            var data := pages[last].data + todo[k].IntoBytes();
            var after := pages[last := pages[last].(data := data)];
            Filling(after, list, todo, j, k + 1) && OnlyFresh(start, after, list)
  {
    hide Chunk.IntoBytes, Chunk.ByteLen;
    var datas, n := Datas(pages, list), |list| - 1;
    var data := datas[n] + todo[k].IntoBytes();
    ReplaceData(pages, list, n, data);
    assert data == EncodeAll(todo[j..k + 1]) by {
      EncodeAllAppend(todo[j..k], todo[k]);
      assert todo[j..k + 1] == todo[j..k] + [todo[k]];
    }
    assert datas[n := data][..n] == datas[..n];
  }

  lemma FillExtend(before: Pages, after: Pages, list: seq<BlockNo>, todo: seq<Chunk>, j: nat, k: nat,
                   next: BlockNo)
    requires Filling(before, list, todo, j, k) && k < |todo|
    requires !before[list[|list| - 1]].CanFit(todo[k].ByteLen())
    requires Extended(before, after, list, next)
    ensures j < k && Filling(after, list + [next], todo, k, k)
  {
    assert j < k;
    ClosePage(todo, j, k, Datas(before, list));
    ExtendedIsLinked(before, after, list, next);
    assert Datas(after, list + [next])[..|list|] == Datas(before, list);
    assert todo[k..k] == [];
  }

  lemma AppendPlain(chunks: seq<Chunk>, rest: seq<BlockNo>)
    requires AllPackable(chunks) && |rest| < 32
    ensures AllPackable(chunks + [Plain(rest)])
    ensures ValuesOf(chunks + [Plain(rest)]) == ValuesOf(chunks) + rest
  {
    AppendChunk(chunks, Plain(rest));
  }

  /** `chunks` and `rest` have it all; the next chunk starts from `last`. */
  ghost predicate Cutting(chunks: seq<Chunk>, rest: seq<BlockNo>, last: Option<BlockNo>, all: seq<BlockNo>) {
    && AllPackable(chunks) && AllBehind(chunks) && ValuesOf(chunks) + rest == all
    && 0 !in rest && last != Some(0) && last == LastOf(ValuesOf(chunks)) && |rest| <= 128
  }

  lemma CutStart(chunks: seq<Chunk>, rest: seq<BlockNo>, last: Option<BlockNo>, all: seq<BlockNo>)
    requires AllPackable(chunks) && AllBehind(chunks) && ValuesOf(chunks) + rest == all
    requires 0 !in rest && last != Some(0) && last == LastOf(ValuesOf(chunks)) && |rest| <= 128
    ensures Cutting(chunks, rest, last, all)
  {}

  lemma CutLen(chunks: seq<Chunk>, lanes: Lanes, rest: seq<BlockNo>, last: Option<BlockNo>, all: seq<BlockNo>)
    requires Cutting(chunks, rest, last, all) && |rest| >= 32
    requires lanes == if |rest| >= 128 then X4 else X1
    ensures 32 <= lanes.BlockLen() <= |rest| <= 128
    ensures var left := |rest| - lanes.BlockLen(); Cuts(|rest|) == Cuts(left) + 1 && left % 32 == |rest| % 32
  {}

  lemma CutStep(chunks: seq<Chunk>, lanes: Lanes, rest: seq<BlockNo>, last: Option<BlockNo>, all: seq<BlockNo>)
    requires Cutting(chunks, rest, last, all) && 0 < lanes.BlockLen() <= |rest|
    ensures var head := rest[..lanes.BlockLen()];
            Cutting(chunks + [PackSlice(lanes, head, last)], rest[lanes.BlockLen()..], Some(head[|head| - 1]), all)
  {
    hide PackSlice, Chunk.Values, AllBehind, Lanes.BlockLen;
    var head := rest[..lanes.BlockLen()];
    ChunkStep(chunks, lanes, rest, last);
    PackedBehind(lanes, head, last, ValuesOf(chunks));
    BehindAppend(chunks, PackSlice(lanes, head, last));
  }

  /** What is left, if anything, goes into a plain chunk. */
  lemma CutEnd(chunks: seq<Chunk>, rest: seq<BlockNo>, last: Option<BlockNo>, all: seq<BlockNo>)
    requires Cutting(chunks, rest, last, all) && |rest| < 32
    ensures var done := if rest == [] then chunks else chunks + [Plain(rest)];
            AllPackable(done) && AllBehind(done) && ValuesOf(done) == all && |done| == |chunks| + Cuts(|rest|)
    ensures |rest| % 32 == 0 <==> rest == []
  {
    hide AllBehind;
    if rest != [] {
      AppendPlain(chunks, rest);
      BehindAppend(chunks, Plain(rest));
    }
  }

  lemma PackedBehind(lanes: Lanes, slice: seq<BlockNo>, last: Option<BlockNo>, before: seq<BlockNo>)
    requires |slice| == lanes.BlockLen() && last == LastOf(before)
    ensures IsBehind(PackSlice(lanes, slice, last), before)
  {}

  lemma ChunkStep(chunks: seq<Chunk>, lanes: Lanes, rest: seq<BlockNo>, last: Option<BlockNo>)
    requires AllPackable(chunks) && |rest| >= lanes.BlockLen() && last != Some(0)
    ensures var c := PackSlice(lanes, rest[..lanes.BlockLen()], last);
            && AllPackable(chunks + [c])
            && ValuesOf(chunks + [c]) == ValuesOf(chunks) + rest[..lanes.BlockLen()]
            && ValuesOf(chunks + [c]) + rest[lanes.BlockLen()..] == ValuesOf(chunks) + rest
  {
    hide PackSlice, Chunk.Values;
    var head, tail := rest[..lanes.BlockLen()], rest[lanes.BlockLen()..];
    var c := PackSlice(lanes, head, last);
    assert c.Values() == head by { PackSliceRoundTrip(lanes, head, last); }
    AppendChunk(chunks, c);
    assert head + tail == rest;
    assert ValuesOf(chunks) + head + tail == ValuesOf(chunks) + (head + tail);
  }

  /** A filled page decodes to the chunks written to it, so the pages so far to all of them. */
  lemma ClosePage(todo: seq<Chunk>, j: nat, k: nat, datas: seq<seq<Byte>>)
    requires AllWellFormed(todo) && j < k <= |todo| && datas != []
    requires datas[|datas| - 1] == EncodeAll(todo[j..k])
    requires DecodeDatas(datas[..|datas| - 1]) == Some(ValuesOf(todo[..j]))
    ensures DecodeDatas(datas) == Some(ValuesOf(todo[..k]))
  {
    DecodeEncodedPage(todo[j..k]);
    ValuesOfSplit(todo, j, k);
  }

  lemma ValuesOfSplit(todo: seq<Chunk>, j: nat, k: nat)
    requires AllWellFormed(todo) && j <= k <= |todo|
    ensures ValuesOf(todo[..j]) + ValuesOf(todo[j..k]) == ValuesOf(todo[..k])
  {
    ValuesOfAppend(todo[..j], todo[j..k]);
    assert todo[..j] + todo[j..k] == todo[..k];
  }

  ghost predicate AllPackable(chunks: seq<Chunk>) {
    AllWellFormed(chunks) && forall i :: 0 <= i < |chunks| ==> chunks[i].ByteLen() <= ITEM_SIZE
  }

  lemma AppendChunk(chunks: seq<Chunk>, c: Chunk)
    requires AllPackable(chunks) && c.WellFormed() && c.ByteLen() <= ITEM_SIZE
    ensures AllPackable(chunks + [c]) && ValuesOf(chunks + [c]) == ValuesOf(chunks) + c.Values()
  {
    ValuesOfAppend(chunks, [c]);
    ValuesOfOne(c);
  }

  // ---------------------------------------------------------------------------------------------
  // Reader
  // ---------------------------------------------------------------------------------------------

  /** `reader::BlockList::new`: walks the pages and decodes them; `None` if it panics. */
  method ReadBlockList(rel: Relation, startingBlock: BlockNo, ghost list: seq<BlockNo>)
    returns (r: Option<seq<BlockNo>>)
    requires startingBlock == INVALID_BLOCK || (list != [] && startingBlock == list[0])
    requires startingBlock == INVALID_BLOCK || Linked(rel.pages, list)
    ensures startingBlock == INVALID_BLOCK ==> r == Some([])
    ensures startingBlock != INVALID_BLOCK ==> r == DecodeDatas(Datas(rel.pages, list))
  {
    if startingBlock == INVALID_BLOCK {
      return Some([]);
    }
    var blocks: seq<BlockNo> := [];
    var blockno := startingBlock;
    ghost var i := 0;
    ghost var datas := Datas(rel.pages, list);
    while blockno != INVALID_BLOCK
      invariant i <= |list| && blockno == (if i < |list| then list[i] else INVALID_BLOCK)
      invariant DecodeDatas(datas[..i]) == Some(blocks)
      decreases |list| - i
    {
      assert datas[..i + 1][..i] == datas[..i];
      var page := ReadPage(rel.pages[blockno].data);
      if page.None? {
        DecodeStops(datas, i + 1);
        return None;
      }
      blocks := blocks + page.value;
      blockno := rel.pages[blockno].next;
      i := i + 1;
    }
    assert datas[..i] == datas;
    return Some(blocks);
  }

  /** The inner loop: chunks are read until the offset reaches the end of the page. */
  method ReadPage(slice: seq<Byte>) returns (r: Option<seq<BlockNo>>)
    ensures r == DecodePage(slice)
  {
    hide DecodeChunk;
    var blocks: seq<BlockNo> := [];
    var offset := 0;
    BehindNothing(slice);
    while true
      invariant 0 <= offset <= |slice|
      invariant DecodePage(slice) == Behind(blocks, DecodePage(slice[offset..]))
      decreases |slice| - offset
    {
      var chunk := DecodeChunk(slice[offset..]);
      if chunk.None? {
        return None;
      }
      assert slice[offset..][chunk.value.1..] == slice[offset + chunk.value.1..];
      BehindChunk(blocks, slice[offset..]);
      blocks := blocks + chunk.value.0;
      offset := offset + chunk.value.1;
      if offset >= |slice| {
        break;
      }
    }
    return Some(blocks);
  }

  ghost function Behind(blocks: seq<BlockNo>, rest: Option<seq<BlockNo>>): Option<seq<BlockNo>> {
    match rest case None => None case Some(more) => Some(blocks + more)
  }

  lemma BehindNothing(s: seq<Byte>)
    ensures s[0..] == s && Behind([], DecodePage(s)) == DecodePage(s)
  {
    var r := DecodePage(s);
    assert r.Some? ==> [] + r.value == r.value;
  }

  lemma BehindChunk(blocks: seq<BlockNo>, s: seq<Byte>)
    requires DecodeChunk(s).Some?
    ensures var (values, n) := DecodeChunk(s).value;
            Behind(blocks, DecodePage(s)) ==
            if n >= |s| then Some(blocks + values) else Behind(blocks + values, DecodePage(s[n..]))
  {
    hide DecodeChunk;
    var (values, n) := DecodeChunk(s).value;
    var r := DecodePage(s[n..]);
    assert r.Some? ==> blocks + (values + r.value) == blocks + values + r.value;
  }

  lemma {:induction false} DecodeStops(datas: seq<seq<Byte>>, i: nat)
    requires i <= |datas| && DecodeDatas(datas[..i]).None?
    ensures DecodeDatas(datas).None?
    decreases |datas| - i
  {
    if i == |datas| {
      assert datas[..i] == datas;
    } else {
      assert datas[..i + 1][..i] == datas[..i];
      DecodeStops(datas, i + 1);
    }
  }
}
