/**
 Marking the files that a save lets go of, and what it leaves of all other pages.
 */
module ReleasedFiles {
  import opened Block
  import opened Storage
  import opened LinkedBytes

  /** What the saving backend goes by, and the header of the list it works on. */
  datatype Backend = Backend(header: BlockNo, snap: Snapshot, horizon: Xid, nextXid: Xid) {
    ghost predicate Valid() { INVALID_XID < nextXid && horizon <= nextXid }
  }

  /** The pages of a file but its header. */
  datatype FilePages = FilePages(chain: seq<BlockNo>, blocklist: seq<BlockNo>)

  type FileMap = map<FileEntry, FilePages>

  ghost function BlocksOf(f: FileEntry, file: FilePages): seq<BlockNo> {
    file.chain + file.blocklist + [f.startingBlock]
  }

  ghost function AllBlocks(fs: set<FileEntry>, files: FileMap): set<BlockNo> {
    set f, b | f in fs && f in files && b in BlocksOf(f, files[f]) :: b
  }

  /** The files can be marked: they are there, deleted or not, and nobody may reuse their pages yet. */
  ghost predicate OnDisk(pages: Pages, env: Backend, chain: seq<BlockNo>, files: FileMap) {
    forall f :: f in files ==> FileOnDisk(pages, env, chain, f, files[f])
  }

  ghost predicate FileOnDisk(pages: Pages, env: Backend, chain: seq<BlockNo>, f: FileEntry, file: FilePages) {
    && Deletable(pages, f.startingBlock, file.chain, file.blocklist)
    && forall b :: b in BlocksOf(f, file) ==>
         b in pages && !pages[b].Recyclable(env.snap, env.horizon) && b != env.header && b !in chain
  }

  /** The pages of `gone` are marked deleted, and no other page has changed. */
  ghost predicate MarkedIn(before: Pages, after: Pages, gone: set<BlockNo>, xid: Xid) {
    && after.Keys == before.Keys
    && forall b :: b in before ==>
         after[b] == if b in gone && before[b].Page? then before[b].MarkDeleted(xid) else before[b]
  }

  lemma MarkedMore(before: Pages, mid: Pages, after: Pages, gone: set<BlockNo>, blocks: seq<BlockNo>, xid: Xid)
    requires MarkedIn(before, mid, gone, xid) && Marked(mid, after, blocks, xid)
    ensures MarkedIn(before, after, gone + (set b | b in blocks), xid)
  {}

  lemma AllBlocksOfNothing(files: FileMap)
    ensures AllBlocks({}, files) == {}
  {}

  lemma AllBlocksMore(fs: set<FileEntry>, f: FileEntry, files: FileMap)
    requires f in files
    ensures AllBlocks(fs + {f}, files) == AllBlocks(fs, files) + set b | b in BlocksOf(f, files[f])
  {
    forall b | b in BlocksOf(f, files[f]) ensures b in AllBlocks(fs + {f}, files) {}
  }

  lemma AllBlocksOfBoth(fs: set<FileEntry>, gs: set<FileEntry>, files: FileMap)
    ensures AllBlocks(fs + gs, files) == AllBlocks(fs, files) + AllBlocks(gs, files)
  {}

  /** Marking keeps files there, the marked ones too. */
  lemma MarkedIsOnDisk(before: Pages, after: Pages, env: Backend, chain: seq<BlockNo>, files: FileMap,
                       gone: set<BlockNo>)
    requires OnDisk(before, env, chain, files) && MarkedIn(before, after, gone, env.nextXid) && env.Valid()
    ensures OnDisk(after, env, chain, files)
  {
    forall f | f in files ensures FileOnDisk(after, env, chain, f, files[f]) {
      assert FileOnDisk(before, env, chain, f, files[f]);
      MarkedIsDeletable(before, after, f.startingBlock, files[f], gone, env.nextXid);
    }
  }

  lemma MarkedIsDeletable(before: Pages, after: Pages, header: BlockNo, file: FilePages, gone: set<BlockNo>, xid: Xid)
    requires Deletable(before, header, file.chain, file.blocklist) && MarkedIn(before, after, gone, xid)
    ensures Deletable(after, header, file.chain, file.blocklist)
  {}

  /** Opens every file and marks it deleted. */
  method MarkFiles(rel: Relation, fs: set<FileEntry>, ghost env: Backend, ghost chain: seq<BlockNo>,
                   ghost files: FileMap)
    requires rel.Valid() && env.Valid() && env.nextXid == rel.nextXid
    requires OnDisk(rel.pages, env, chain, files) && fs <= files.Keys
    modifies rel`pages
    ensures rel.Valid() && MarkedIn(old(rel.pages), rel.pages, AllBlocks(fs, files), rel.nextXid)
  {
    hide OnDisk, MarkedIn, AllBlocks, Marked, Relation.Valid;
    ghost var before := rel.pages;
    var todo := fs;
    AllBlocksOfNothing(files);
    MarkedNothing(before, rel.nextXid);
    assert fs - todo == {};
    while todo != {}
      invariant todo <= fs && rel.Valid()
      invariant MarkedIn(before, rel.pages, AllBlocks(fs - todo, files), rel.nextXid)
      decreases |todo|
    {
      var f :| f in todo;
      MarkedIsOnDisk(before, rel.pages, env, chain, files, AllBlocks(fs - todo, files));
      ThereIs(rel.pages, env, chain, files, f);
      ghost var mid := rel.pages;
      var file := LinkedBytesList.Open(rel, f.startingBlock, files[f].chain, files[f].blocklist, []);
      file.MarkDeleted();
      MarkedMore(before, mid, rel.pages, AllBlocks(fs - todo, files), BlocksOf(f, files[f]), rel.nextXid);
      AllBlocksMore(fs - todo, f, files);
      assert fs - (todo - {f}) == fs - todo + {f};
      todo := todo - {f};
    }
    assert fs - todo == fs;
  }

  lemma MarkedNothing(pages: Pages, xid: Xid)
    ensures MarkedIn(pages, pages, {}, xid)
  {}

  lemma ThereIs(pages: Pages, env: Backend, chain: seq<BlockNo>, files: FileMap, f: FileEntry)
    requires OnDisk(pages, env, chain, files) && f in files
    ensures Deletable(pages, f.startingBlock, files[f].chain, files[f].blocklist)
  {}

  // ---------------------------------------------------------------------------------------------
  // All other pages
  // ---------------------------------------------------------------------------------------------

  /**
   Of the pages that are neither the list's nor recyclable, those of `gone` are marked deleted and all
   others are as they were; none has become the list's.
   */
  ghost predicate Releases(before: Pages, after: Pages, env: Backend, chain: seq<BlockNo>, chain': seq<BlockNo>,
                           gone: set<BlockNo>)
  {
    forall b :: b in before && !before[b].Recyclable(env.snap, env.horizon) && b != env.header && b !in chain ==>
      && b !in chain' && b in after
      && after[b] == if b in gone then before[b].MarkDeleted(env.nextXid) else before[b]
  }

  lemma ReleasesNothing(pages: Pages, env: Backend, chain: seq<BlockNo>)
    ensures Releases(pages, pages, env, chain, chain, {})
  {}

  lemma ReleasesMarked(start: Pages, pages: Pages, after: Pages, env: Backend, c0: seq<BlockNo>,
                       chain: seq<BlockNo>, gone: set<BlockNo>, more: set<BlockNo>)
    requires Releases(start, pages, env, c0, chain, gone) && MarkedIn(pages, after, more, env.nextXid)
    ensures Releases(start, after, env, c0, chain, gone + more)
  {}

  lemma ReleasesSpared(start: Pages, pages: Pages, after: Pages, env: Backend, c0: seq<BlockNo>,
                       c1: seq<BlockNo>, c2: seq<BlockNo>, gone: set<BlockNo>)
    requires Releases(start, pages, env, c0, c1, gone) && env.Valid()
    requires Spares(pages, after, env.header, c1, c2, env.snap, env.horizon)
    ensures Releases(start, after, env, c0, c2, gone)
  {}

  /** The files are there all through the save. */
  lemma StillOnDisk(start: Pages, pages: Pages, env: Backend, c0: seq<BlockNo>, chain: seq<BlockNo>,
                    files: FileMap, gone: set<BlockNo>)
    requires OnDisk(start, env, c0, files) && Releases(start, pages, env, c0, chain, gone) && env.Valid()
    ensures OnDisk(pages, env, chain, files)
  {
    hide Deletable, Releases;
    forall f | f in files ensures FileOnDisk(pages, env, chain, f, files[f]) {
      assert FileOnDisk(start, env, c0, f, files[f]);
      SameFile(start, pages, env, c0, chain, f, files[f], gone);
    }
  }

  lemma SameFile(start: Pages, pages: Pages, env: Backend, c0: seq<BlockNo>, chain: seq<BlockNo>, f: FileEntry,
                 file: FilePages, gone: set<BlockNo>)
    requires FileOnDisk(start, env, c0, f, file) && Releases(start, pages, env, c0, chain, gone) && env.Valid()
    ensures FileOnDisk(pages, env, chain, f, file)
  {
    SameBlocks(start, pages, env, c0, chain, f, file, gone);
    hide Releases;
    SameDeletable(start, pages, f, file);
  }

  ghost predicate SameButMark(before: Pages, after: Pages, b: BlockNo) {
    && b in before && b in after && before[b].Page? && after[b].Page?
    && after[b].next == before[b].next && after[b].list == before[b].list
  }

  lemma SameBlocks(start: Pages, pages: Pages, env: Backend, c0: seq<BlockNo>, chain: seq<BlockNo>, f: FileEntry,
                   file: FilePages, gone: set<BlockNo>)
    requires FileOnDisk(start, env, c0, f, file) && Releases(start, pages, env, c0, chain, gone) && env.Valid()
    ensures forall b :: b in BlocksOf(f, file) ==>
      && SameButMark(start, pages, b) && !pages[b].Recyclable(env.snap, env.horizon) && b != env.header && b !in chain
  {
    hide Deletable, BlocksOf;
  }

  lemma SameDeletable(before: Pages, after: Pages, f: FileEntry, file: FilePages)
    requires Deletable(before, f.startingBlock, file.chain, file.blocklist)
    requires forall b :: b in BlocksOf(f, file) ==> SameButMark(before, after, b)
    ensures Deletable(after, f.startingBlock, file.chain, file.blocklist)
  {
    assert f.startingBlock in BlocksOf(f, file);
    assert forall i :: 0 <= i < |file.chain| ==> file.chain[i] in BlocksOf(f, file);
    assert forall i :: 0 <= i < |file.blocklist| ==> file.blocklist[i] in BlocksOf(f, file);
  }

  /** What is marked is neither on the list nor its header. */
  lemma FilesAreApart(pages: Pages, env: Backend, chain: seq<BlockNo>, files: FileMap, fs: set<FileEntry>)
    requires OnDisk(pages, env, chain, files)
    ensures env.header !in AllBlocks(fs, files) && forall b :: b in chain ==> b !in AllBlocks(fs, files)
  {
    forall f, b | f in files && b in BlocksOf(f, files[f]) ensures b != env.header && b !in chain {
      assert FileOnDisk(pages, env, chain, f, files[f]);
    }
  }
}
