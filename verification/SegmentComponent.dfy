/**
 Writing and reading the file of one segment component: a buffer that passes on pages' worths of
 bytes, and random access to what was written.
 */
module SegmentComponent {
  import opened Wrappers
  import opened BitPacking
  import opened Block
  import opened Storage
  import opened LinkedBytes

  // ---------------------------------------------------------------------------------------------
  // ExactBuffer
  // ---------------------------------------------------------------------------------------------

  ghost predicate AllOfSize(blocks: seq<seq<Byte>>, size: nat) {
    forall i :: 0 <= i < |blocks| ==> |blocks[i]| == size
  }

  lemma WritingIsValid(list: LinkedBytesList)
    requires list.Writing()
    ensures list.rel.Valid()
  {}

  class ExactBuffer {
    const writer: LinkedBytesList
    const buffer: array<Byte>
    var len: nat

    ghost var input: seq<Byte>           // everything written to this buffer
    ghost var passedOn: seq<seq<Byte>>   // the blocks passed on to the writer

    // Nothing is lost: what was passed on, followed by what is buffered, is what was written.  The
    // buffer is never left full.
    ghost predicate Valid()
      reads this, buffer, writer, writer.rel, writer.builder
    {
      && writer.Writing()
      && len < buffer.Length
      && writer.content == Flatten(passedOn)
      && input == writer.content + buffer[..len]
    }

    constructor (writer: LinkedBytesList, capacity: nat)
      requires writer.Writing() && writer.content == [] && capacity > 0
      ensures Valid() && fresh(buffer) && this.writer == writer && buffer.Length == capacity
      ensures input == [] && passedOn == []
    {
      this.writer := writer;
      buffer := new Byte[capacity](_ => 0);
      len, input, passedOn := 0, [], [];
    }

    /** Copies `data` into the buffer at `at`. */
    method Copy(at: nat, data: seq<Byte>)
      requires at + |data| <= buffer.Length
      modifies buffer
      ensures buffer[..at + |data|] == old(buffer[..at]) + data
    {
      forall i | 0 <= i < |data| {
        buffer[at + i] := data[i];
      }
    }

    /** One block down to the writer. */
    method PassOn(block: seq<Byte>) returns (r: Result<()>)
      requires writer.Writing() && writer.content == Flatten(passedOn)
      modifies this`passedOn, writer, writer.builder, writer.rel
      ensures writer.rel.Valid()
      ensures r.Failure? ==> writer.rel.Full()
      ensures r.Success? ==>
        && writer.Writing() && writer.content == old(writer.content) + block
        && passedOn == old(passedOn) + [block] && writer.content == Flatten(passedOn)
        && Bystanders(old(writer.rel.pages), writer.rel.pages, writer.headerBlockno,
                        old(writer.chain), writer.chain)
    {
      hide LinkedBytesList.Writing, Bystanders, Relation.Valid;
      WritingIsValid(writer);
      var _ :- writer.Write(block);
      FlattenAppend(passedOn, [block]);
      assert Flatten([block]) == block + [];
      passedOn := passedOn + [block];
      return Success(());
    }

    // In the middle of a write: `rest` is still to be placed.
    ghost predicate Placing(rest: seq<Byte>)
      reads this, buffer, writer, writer.rel, writer.builder
    {
      && writer.Writing() && writer.rel.Valid()
      && len < buffer.Length
      && writer.content == Flatten(passedOn)
      && input == writer.content + buffer[..len] + rest
    }

    /** As much of `data` as there is room for. */
    method TakeIn(data: seq<Byte>) returns (rest: seq<Byte>)
      requires len < buffer.Length
      modifies this`len, buffer
      ensures len <= buffer.Length && buffer[..len] + rest == old(buffer[..len]) + data
      ensures rest != [] ==> len == buffer.Length
    {
      var end := if buffer.Length - len < |data| then buffer.Length - len else |data|;
      assert data == data[..end] + data[end..];
      Copy(len, data[..end]);
      len := len + end;
      return data[end..];
    }

    /** Fills the buffer, which is never full to begin with, and passes it on once it is. */
    method FillBuffer(data: seq<Byte>) returns (r: Result<seq<Byte>>)
      requires Placing(data)
      modifies this`len, this`passedOn, buffer, writer, writer.builder, writer.rel
      ensures writer.rel.Valid()
      ensures r.Failure? ==> writer.rel.Full()
      ensures r.Success? ==>
        && Placing(r.value) && (r.value != [] ==> len == 0)
        && old(passedOn) <= passedOn
        && AllOfSize(passedOn[|old(passedOn)|..], buffer.Length)
        && Bystanders(old(writer.rel.pages), writer.rel.pages, writer.headerBlockno,
                        old(writer.chain), writer.chain)
    {
      hide LinkedBytesList.Writing, Flatten, Bystanders, Relation.Valid;
      ghost var before := writer.content;
      assert input == before + (buffer[..len] + data);
      var rest := TakeIn(data);
      BystandersOfNothing(writer.rel.pages, writer.headerBlockno, writer.chain);
      if len == buffer.Length {
        assert buffer[..len] == buffer[..];
        var _ :- PassOn(buffer[..]);
        len := 0;
      }
      return Success(rest);
    }

    /** Blocks of exactly the capacity go straight to the writer. */
    method PassBlocks(data: seq<Byte>) returns (r: Result<seq<Byte>>)
      requires Placing(data) && (data != [] ==> len == 0)
      modifies this`passedOn, writer, writer.builder, writer.rel
      ensures writer.rel.Valid()
      ensures r.Failure? ==> writer.rel.Full()
      ensures r.Success? ==>
        && Placing(r.value) && (r.value != [] ==> len == 0) && |r.value| < buffer.Length
        && old(passedOn) <= passedOn
        && AllOfSize(passedOn[|old(passedOn)|..], buffer.Length)
        && Bystanders(old(writer.rel.pages), writer.rel.pages, writer.headerBlockno,
                        old(writer.chain), writer.chain)
    {
      hide LinkedBytesList.Writing, Flatten, Bystanders, Relation.Valid;
      var rest := data;
      BystandersOfNothing(writer.rel.pages, writer.headerBlockno, writer.chain);
      while |rest| >= buffer.Length
        invariant Placing(rest) && (rest != [] ==> len == 0)
        invariant Bystanders(old(writer.rel.pages), writer.rel.pages, writer.headerBlockno,
                               old(writer.chain), writer.chain)
        invariant old(passedOn) <= passedOn
        invariant AllOfSize(passedOn[|old(passedOn)|..], buffer.Length)
      {
        var block := rest[..buffer.Length];
        assert rest == block + rest[buffer.Length..];
        ghost var p1, c1 := writer.rel.pages, writer.chain;
        var _ :- PassOn(block);
        BystandersTransitive(old(writer.rel.pages), p1, writer.rel.pages, writer.headerBlockno,
                             old(writer.chain), c1, writer.chain);
        rest := rest[buffer.Length..];
      }
      return Success(rest);
    }

    method Write(data: seq<Byte>) returns (r: Result<nat>)
      requires Valid()
      modifies this, buffer, writer, writer.builder, writer.rel
      ensures writer.rel.Valid()
      ensures r.Failure? ==> writer.rel.Full()
      ensures r.Success? ==>
        && r.value == |data|
        && Valid() && input == old(input) + data
        && old(passedOn) <= passedOn
        && AllOfSize(passedOn[|old(passedOn)|..], buffer.Length)
        && Bystanders(old(writer.rel.pages), writer.rel.pages, writer.headerBlockno,
                        old(writer.chain), writer.chain)
    {
      hide LinkedBytesList.Writing, Flatten, Bystanders, Relation.Valid;
      WritingIsValid(writer);
      input := input + data;
      var rest :- FillBuffer(data);
      ghost var p1, c1 := writer.rel.pages, writer.chain;
      rest :- PassBlocks(rest);
      BystandersTransitive(old(writer.rel.pages), p1, writer.rel.pages, writer.headerBlockno,
                           old(writer.chain), c1, writer.chain);
      if rest != [] {
        Copy(0, rest);
        len := |rest|;
      }
      return Success(|data|);
    }

    /** Whatever is buffered is passed on, even when that is nothing. */
    method Flush() returns (r: Result<()>)
      requires Valid()
      modifies this, writer, writer.builder, writer.rel
      ensures writer.rel.Valid()
      ensures r.Failure? ==> writer.rel.Full()
      ensures r.Success? ==>
        && Valid() && len == 0 && input == old(input) && writer.content == input
        && passedOn == old(passedOn) + [old(buffer[..len])]
        && Bystanders(old(writer.rel.pages), writer.rel.pages, writer.headerBlockno,
                        old(writer.chain), writer.chain)
    {
      hide LinkedBytesList.Writing, Bystanders;
      var _ :- PassOn(buffer[..len]);
      len := 0;
      return Success(());
    }
  }

  // ---------------------------------------------------------------------------------------------
  // Writer
  // ---------------------------------------------------------------------------------------------

  class SegmentComponentWriter {
    const buffer: ExactBuffer
    var totalBytes: nat

    ghost predicate Valid()
      reads this, buffer, buffer.buffer, buffer.writer, buffer.writer.rel, buffer.writer.builder
    {
      && buffer.Valid() && buffer.buffer.Length == ITEM_SIZE
      && totalBytes == |buffer.input|
    }

    ghost predicate Input(input: seq<Byte>)
      reads this, buffer, buffer.buffer, buffer.writer, buffer.writer.rel, buffer.writer.builder
    {
      Valid() && buffer.input == input
    }

    constructor (segmentComponent: LinkedBytesList)
      requires segmentComponent.Writing() && segmentComponent.content == []
      ensures Input([]) && fresh(buffer) && fresh(buffer.buffer) && buffer.writer == segmentComponent
    {
      buffer := new ExactBuffer(segmentComponent, ITEM_SIZE);
      totalBytes := 0;
    }

    method Write(data: seq<Byte>) returns (r: Result<nat>)
      requires Valid()
      modifies this, buffer, buffer.buffer, buffer.writer, buffer.writer.builder, buffer.writer.rel
      ensures buffer.writer.rel.Valid()
      ensures r.Failure? ==> buffer.writer.rel.Full()
      ensures r.Success? ==>
        && Input(old(buffer.input) + data)
        && Bystanders(old(buffer.writer.rel.pages), buffer.writer.rel.pages,
                        buffer.writer.headerBlockno, old(buffer.writer.chain), buffer.writer.chain)
    {
      var many :- buffer.Write(data);
      totalBytes := totalBytes + |data|;
      return Success(many);
    }

    method Flush() returns (r: Result<()>)
      requires Valid()
      modifies buffer, buffer.writer, buffer.writer.builder, buffer.writer.rel
      ensures buffer.writer.rel.Valid()
      ensures r.Failure? ==> buffer.writer.rel.Full()
      ensures r.Success? ==>
        && Input(old(buffer.input))
        && Bystanders(old(buffer.writer.rel.pages), buffer.writer.rel.pages,
                        buffer.writer.headerBlockno, old(buffer.writer.chain), buffer.writer.chain)
    {
      r := buffer.Flush();
    }

    function FileEntry(): FileEntry
      reads this
    {
      Block.FileEntry.FileEntry(buffer.writer.headerBlockno, totalBytes)
    }

    /** The last bytes are passed on and the blocklist is written. */
    method Terminate() returns (r: Result<()>)
      requires Valid()
      modifies buffer, buffer.writer, buffer.writer.builder, buffer.writer.rel
      ensures buffer.writer.rel.Valid()
      ensures r.Failure? ==> buffer.writer.rel.Full()
      ensures r.Success? ==>
        var list := buffer.writer;
        && Stored(list.rel.pages, list.headerBlockno, list.chain, list.blocklist, old(buffer.input))
        && FileEntry() == Block.FileEntry.FileEntry(list.headerBlockno, |old(buffer.input)|)
        && Bystanders(old(list.rel.pages), list.rel.pages, list.headerBlockno,
                      old(list.chain), list.chain + list.blocklist)
    {
      hide LinkedBytesList.Writing, Bystanders, Stored;
      var _ :- buffer.Flush();
      ghost var p1, c1 := buffer.writer.rel.pages, buffer.writer.chain;
      r := buffer.writer.Flush();
      if r.Success? {
        BystandersTransitive(old(buffer.writer.rel.pages), p1, buffer.writer.rel.pages,
                             buffer.writer.headerBlockno, old(buffer.writer.chain), c1,
                             buffer.writer.chain + buffer.writer.blocklist);
      }
    }
  }

  // ---------------------------------------------------------------------------------------------
  // Reader
  // ---------------------------------------------------------------------------------------------

  /** How many pages a stored list of `total` bytes has. */
  function PagesFor(total: nat): nat {
    if total == 0 then 1 else (total + ITEM_SIZE - 1) / ITEM_SIZE
  }

  lemma StoredPages(pages: Pages, header: BlockNo, chain: seq<BlockNo>, blocklist: seq<BlockNo>,
                    content: seq<Byte>)
    requires Stored(pages, header, chain, blocklist, content)
    ensures |chain| == PagesFor(|content|)
    ensures |content| <= ITEM_SIZE * |chain|
  {
    var datas := Datas(pages, chain);
    FullLength(datas);
    var last := |datas[|datas| - 1]|;
    if |content| > 0 {
      assert |content| + ITEM_SIZE - 1 == ITEM_SIZE * |chain| + (last - 1);
    }
  }

  class SegmentComponentReader {
    const blockList: LinkedBytesList
    const entry: FileEntry
    var npages: nat
    var lastBlockno: BlockNo

    ghost predicate Valid()
      reads this, blockList, blockList.rel
    {
      && blockList.Reading()
      && entry.totalBytes == |blockList.content|
      && (npages == 0 || npages == blockList.metadata.npages - 1)
      && (lastBlockno == INVALID_BLOCK || lastBlockno == blockList.metadata.lastBlockno)
    }

    constructor (blockList: LinkedBytesList, entry: FileEntry)
      requires blockList.Reading() && entry.totalBytes == |blockList.content|
      ensures Valid() && this.blockList == blockList && this.entry == entry
    {
      this.blockList, this.entry := blockList, entry;
      npages, lastBlockno := 0, INVALID_BLOCK;
    }

    method LastBlockno() returns (b: BlockNo)
      requires Valid()
      modifies this`lastBlockno
      ensures Valid() && b == blockList.metadata.lastBlockno
    {
      if lastBlockno == INVALID_BLOCK {
        lastBlockno := blockList.metadata.lastBlockno;
      }
      return lastBlockno;
    }

    /** The number of data pages, less one; 0 stands for "not known yet" in the cache. */
    method Npages() returns (n: nat)
      requires Valid()
      modifies this`npages
      ensures Valid() && n == blockList.metadata.npages - 1
    {
      if npages == 0 {
        npages := blockList.metadata.npages - 1;
      }
      return npages;
    }

    /**
     Exactly the bytes of the range that exist, whichever way they are fetched.  `None` is the panic
     of a start beyond the last page.
     */
    method ReadBytesRaw(start: nat, end: nat) returns (r: Option<RangeData>)
      requires Valid()
      modifies this, blockList
      ensures Valid() && blockList.content == old(blockList.content)
      ensures r.Some? <==> start / ITEM_SIZE < PagesFor(entry.totalBytes)
      ensures r.Some? ==> r.value.bytes == Slice(blockList.content, start, end)
    {
      hide Stored, Layout;
      StoredPages(blockList.rel.pages, blockList.headerBlockno, blockList.chain, blockList.blocklist,
                  blockList.content);
      ReadingFacts(blockList);
      var end' := if end < entry.totalBytes then end else entry.totalBytes;
      assert Slice(blockList.content, start, end') == Slice(blockList.content, start, end);
      var startBlockOrdinal := start / ITEM_SIZE;
      var npages := Npages();
      if startBlockOrdinal == npages {
        var last := LastBlockno();
        LastPageRange(start, end', |blockList.chain|);
        var data := blockList.GetCachedRange(last, start, end');
        return Some(data);
      } else {
        if start < end' {
          NotLastPage(start, end', |blockList.chain|, |blockList.content|);
        }
        r := blockList.GetBytesRange(start, end');
      }
    }
  }

  lemma ReadingFacts(list: LinkedBytesList)
    requires list.Reading()
    ensures list.chain != [] && list.metadata.lastBlockno == list.chain[|list.chain| - 1]
    ensures list.metadata.npages == |list.chain| && list.metadata.lastBlockno != INVALID_BLOCK
  {}

  lemma LastPageRange(start: nat, end: nat, npages: nat)
    requires start / ITEM_SIZE == npages - 1 && end <= ITEM_SIZE * npages
    ensures start < end ==> start % ITEM_SIZE + (end - start) <= ITEM_SIZE
  {}

  lemma NotLastPage(start: nat, end: nat, npages: nat, total: nat)
    requires start < end <= total <= ITEM_SIZE * npages
    ensures start / ITEM_SIZE < npages
  {}

  // ---------------------------------------------------------------------------------------------
  // End to end
  // ---------------------------------------------------------------------------------------------

  datatype Op = Write(data: seq<Byte>) | Flush

  ghost function Written(ops: seq<Op>): seq<Byte> {
    if ops == [] then []
    else
      var op := ops[|ops| - 1];
      Written(ops[..|ops| - 1]) + (if op.Write? then op.data else [])
  }

  /** Any writes and flushes through one writer, and the file terminated. */
  method WriteFile(rel: Relation, ops: seq<Op>)
    returns (r: Result<FileEntry>, ghost chain: seq<BlockNo>, ghost blocklist: seq<BlockNo>)
    requires rel.Valid()
    modifies rel
    ensures rel.Valid()
    ensures r.Failure? ==> rel.Full()
    ensures r.Success? ==>
      && r.value.totalBytes == |Written(ops)|
      && Stored(rel.pages, r.value.startingBlock, chain, blocklist, Written(ops))
      && Preserved(old(rel.pages), rel.pages)
  {
    hide LinkedBytesList.Writing, Bystanders, Stored, ExactBuffer.Valid;
    chain, blocklist := [], [];
    var list :- LinkedBytesList.Create(rel);
    var writer := new SegmentComponentWriter(list);
    CreatedPreserves(list, old(rel.pages));
    var i := 0;
    assert ops[..0] == [];
    while i < |ops|
      invariant 0 <= i <= |ops| && writer.buffer.writer == list && list.rel == rel
      invariant fresh(writer) && fresh(writer.buffer) && fresh(writer.buffer.buffer)
      invariant fresh(list) && fresh(list.builder) && rel.Valid()
      invariant writer.Input(Written(ops[..i]))
      invariant NotInUse(old(rel.pages), [list.headerBlockno] + list.chain)
      invariant Preserved(old(rel.pages), rel.pages)
    {
      ghost var p1, c1 := rel.pages, list.chain;
      match ops[i] {
        case Write(data) =>
          var _ :- writer.Write(data);
        case Flush =>
          var _ :- writer.Flush();
      }
      BystandersPreserve(old(rel.pages), p1, rel.pages, list.headerBlockno, c1, list.chain);
      assert ops[..i + 1][..i] == ops[..i];
      i := i + 1;
    }
    assert ops[..i] == ops;
    ghost var p1, c1 := rel.pages, list.chain;
    var _ :- writer.Terminate();
    BystandersPreserve(old(rel.pages), p1, rel.pages, list.headerBlockno, c1,
                       list.chain + list.blocklist);
    return Success(writer.FileEntry()), list.chain, list.blocklist;
  }

  /**
   Any writes and flushes, the file terminated and reopened, and any range read back: exactly the
   bytes of the range that were written.  Pages that were in use before are as they were.
   */
  method WriteThenRead(rel: Relation, ops: seq<Op>, start: nat, end: nat)
    returns (r: Result<Option<seq<Byte>>>)
    requires rel.Valid()
    modifies rel
    ensures r.Failure? ==> rel.Full()
    ensures r.Success? ==>
      && (r.value.Some? <==> start / ITEM_SIZE < PagesFor(|Written(ops)|))
      && (start < |Written(ops)| ==> r.value.Some?)
      && (r.value.Some? ==> r.value.value == Slice(Written(ops), start, end))
      && Preserved(old(rel.pages), rel.pages)
  {
    hide Stored;
    var file, chain, blocklist := WriteFile(rel, ops);
    if file.Failure? {
      return file.PropagateFailure();
    }
    var entry := file.value;
    StoredIsDeletable(rel.pages, entry.startingBlock, chain, blocklist, Written(ops));
    var stored := LinkedBytesList.Open(rel, entry.startingBlock, chain, blocklist, Written(ops));
    var reader := new SegmentComponentReader(stored, entry);
    var data := reader.ReadBytesRaw(start, end);
    return Success(if data.Some? then Some(data.value.bytes) else None);
  }

  /** Every page in use before is as it was. */
  ghost predicate Preserved(before: Pages, after: Pages) {
    forall b :: b in before && before[b].InUse() ==> b in after && after[b] == before[b]
  }

  ghost predicate NotInUse(pages: Pages, blocks: seq<BlockNo>) {
    forall b :: b in blocks && b in pages ==> !pages[b].InUse()
  }

  lemma CreatedPreserves(list: LinkedBytesList, before: Pages)
    requires list.Writing()
    requires OnlyFresh(before, list.rel.pages, [list.headerBlockno] + list.chain)
    ensures Preserved(before, list.rel.pages)
    ensures NotInUse(before, [list.headerBlockno] + list.chain)
  {}

  lemma BystandersPreserve(p0: Pages, p1: Pages, p2: Pages, header: BlockNo, chain: seq<BlockNo>,
                           chain': seq<BlockNo>)
    requires Preserved(p0, p1) && NotInUse(p0, [header] + chain)
    requires Bystanders(p1, p2, header, chain, chain')
    ensures Preserved(p0, p2) && NotInUse(p0, [header] + chain')
  {}
}
