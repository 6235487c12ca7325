/**
 The steps of the state machines about scans and about blocks are those of the functions that saving,
 loading and collecting the entries are proved to compute: the machines leave out of an entry only what
 their results do not depend on.
 */
module Refinement {
  import opened Wrappers
  import opened Block
  import opened Storage
  import opened Transactions
  import opened GarbageCollection
  import opened SegmentMetas
  import Scans = CleanupLock
  import Blocks = VacuumSafety

  // ---------------------------------------------------------------------------------------------
  // Scans and bulk deletes
  // ---------------------------------------------------------------------------------------------

  /** The segments of the machine have the ids of the entries. */
  ghost predicate Lists(segments: Scans.Segments, m: Entries) {
    && segments.Keys == m.Keys
    && forall id :: id in m ==> segments[id].xmin == m[id].xmin && segments[id].xmax == m[id].xmax
  }

  lemma InsertIsSave(s: Scans.State, a: Scans.Action, m: Entries, save: Save)
    requires a.Insert? && Scans.Enabled(s, a) && Lists(s.segments, m) && save.Acceptable(m)
    requires save.Created() == {a.id} && save.Modified() == {} && save.Deleted() == {}
    requires save.xid == s.writers[a.w].x
    ensures Lists(Scans.Apply(s, a).segments, save.After(m))
  {
    hide Ids, ById;
  }

  lemma MergeIsSave(s: Scans.State, a: Scans.Action, m: Entries, save: Save)
    requires a.Merge? && Scans.Enabled(s, a) && Lists(s.segments, m) && save.Acceptable(m)
    requires save.Created() == {a.id} && save.Modified() == {} && save.Deleted() == a.inputs
    requires save.xid == s.writers[a.w].x
    ensures Lists(Scans.Apply(s, a).segments, save.After(m))
  {
    hide Ids, ById, Scans.AliveIn;
  }

  /** The commit of a bulk delete: what is left out is deleted, of the others delete files are replaced. */
  lemma CommitIsSave(s: Scans.State, a: Scans.Action, m: Entries, save: Save)
    requires a.CommitDeletes? && Scans.Enabled(s, a) && Lists(s.segments, m) && save.Acceptable(m)
    requires save.Created() == {} && save.Deleted() == a.leaveOut
    requires s.vacuum.Some? ==> save.xid == s.vacuum.value
    ensures Lists(Scans.Apply(s, a).segments, save.After(m))
  {
    hide Ids, ById, Scans.AsLeftOuts, Scans.VisibleIn, Scans.DocsOf, Scans.AliveIn, Scans.Merged, CreatedEntry;
  }

  /** Writers and scans load what is visible; a bulk delete reads what is not recyclable. */
  lemma LoadsAreLoads(s: Scans.State, a: Scans.Action, m: Entries)
    requires Scans.Enabled(s, a) && Lists(s.segments, m)
    ensures a.OpenWriter? ==> Scans.Apply(s, a).writers[a.w].loaded.Keys == VisibleIn(m, s.clock.live[a.v])
    ensures a.LoadScan? ==>
      Scans.Apply(s, a).scans[a.k].loaded == Some(VisibleIn(m, s.clock.live[s.scans[a.k].v]))
    ensures a.ReadAll? ==> forall view: View, id :: a.horizon <= view.snap.xmin ==>
      (id in Scans.Apply(s, a).found <==> id in m && AnyNotRecyclable.Wants(m[id], view, a.horizon))
  {
    assert forall view :: Scans.VisibleIn(s.segments, view) == VisibleIn(m, view);
  }

  /** A collection may remove exactly the recyclable entries, and removes no other. */
  lemma CollectIsCollection(s: Scans.State, id: SegmentId, m: Entries, env: Env)
    requires Lists(s.segments, m) && env.Sound() && id in m
    ensures Collected(m, env).Keys == set i | i in m && !s.segments[i].Gone(env.horizon)
    ensures Scans.Enabled(s, Scans.CollectSegment(id, env.horizon)) ==>
      Lists(Scans.Apply(s, Scans.CollectSegment(id, env.horizon)).segments, m - {id})
  {}

  // ---------------------------------------------------------------------------------------------
  // Blocks of files
  // ---------------------------------------------------------------------------------------------

  /** The entries of the machine have the ids of the entries, and for each of their files its blocks. */
  ghost predicate Holds(entries: Blocks.Directory, m: Entries, pages: map<FileEntry, set<BlockNo>>) {
    entries.Keys == m.Keys && forall id :: id in m ==> HoldsOne(entries[id], m[id], pages)
  }

  ghost predicate HoldsOne(b: Blocks.Entry, e: SegmentMetaEntry, pages: map<FileEntry, set<BlockNo>>) {
    && b.xmin == e.xmin && b.xmax == e.xmax
    && forall c: Component ::
         if e.GetFileEntry(c).Some? then
           c in b.files && e.GetFileEntry(c).value in pages && b.files[c] == pages[e.GetFileEntry(c).value]
         else c !in b.files
  }

  lemma CreateIsSave(s: Blocks.State, a: Blocks.Action, m: Entries, save: Save,
                     pages: map<FileEntry, set<BlockNo>>)
    requires a.CreateEntry? && Blocks.Enabled(s, a) && Holds(s.entries, m, pages) && save.Acceptable(m)
    requires save.Created() == {a.id} && save.Modified() == {} && save.Deleted() == {} && save.xid == a.x
    requires forall c: Component ::
      if c in save.newFiles[a.id] then
        c in a.files && save.newFiles[a.id][c].0 in pages && a.files[c] == pages[save.newFiles[a.id][c].0]
      else c !in a.files
    ensures Holds(Blocks.Apply(s, a).entries, save.After(m), pages)
  {
    hide Ids, ById, SegmentMetaEntry.GetFileEntry, Blocks.Created;
  }

  /** What is left to be marked is then exactly the blocks of the files the save lets go of. */
  lemma DropIsSave(s: Blocks.State, a: Blocks.Action, m: Entries, save: Save,
                   pages: map<FileEntry, set<BlockNo>>)
    requires a.DropEntry? && Blocks.Enabled(s, a) && Holds(s.entries, m, pages) && save.Acceptable(m)
    requires save.Created() == {} && save.Modified() == {} && save.Deleted() == {a.id} && save.xid == a.x
    ensures Holds(Blocks.Apply(s, a).entries, save.After(m), pages)
    ensures forall b :: (a.p, b) in Blocks.Apply(s, a).toMark <==>
      (a.p, b) in s.toMark || exists f :: f in pages && Released(save, m, f) && b in pages[f]
  {
    hide Ids, ById, SegmentMetaEntry.GetFileEntry, HasFile;
    var e := m[a.id];
    XmaxKeepsFiles(e, a.x);
    forall f ensures Released(save, m, f) <==> HasFile(e, f) {}
    BlocksAreReleased(s.entries[a.id], e, pages);
  }

  lemma XmaxKeepsFiles(e: SegmentMetaEntry, x: Xid)
    ensures forall c: Component :: e.(xmax := x).GetFileEntry(c) == e.GetFileEntry(c)
  {}

  lemma BlocksAreReleased(b: Blocks.Entry, e: SegmentMetaEntry, pages: map<FileEntry, set<BlockNo>>)
    requires HoldsOne(b, e, pages)
    ensures forall n :: n in Blocks.BlocksOf(b.files) <==> exists f :: f in pages && HasFile(e, f) && n in pages[f]
  {
    hide HasFile, SegmentMetaEntry.GetFileEntry;
    forall f: FileEntry ensures HasFile(e, f) <==> exists c: Component :: e.GetFileEntry(c) == Some(f) {
      FilesOfIff(e, f);
    }
    forall n | n in Blocks.BlocksOf(b.files) ensures exists f :: f in pages && HasFile(e, f) && n in pages[f] {
      var c :| c in b.files && n in b.files[c];
      assert e.GetFileEntry(c).Some?;
      assert HasFile(e, e.GetFileEntry(c).value);
    }
    forall n, f | f in pages && HasFile(e, f) && n in pages[f] ensures n in Blocks.BlocksOf(b.files) {
      var c: Component :| e.GetFileEntry(c) == Some(f);
      assert c in b.files && n in b.files[c];
    }
  }

  lemma ReplaceIsSave(s: Blocks.State, a: Blocks.Action, m: Entries, save: Save,
                      pages: map<FileEntry, set<BlockNo>>)
    requires a.ReplaceDelete? && Blocks.Enabled(s, a) && Holds(s.entries, m, pages) && save.Acceptable(m)
    requires save.Created() == {} && save.Modified() == {a.id} && save.Deleted() == {}
    requires var f := save.newFiles[a.id][Delete].0; f in pages && pages[f] == a.file
    ensures Holds(Blocks.Apply(s, a).entries, save.After(m), pages)
    ensures forall b :: (Blocks.Vacuum, b) in Blocks.Apply(s, a).toMark <==>
      (Blocks.Vacuum, b) in s.toMark || exists f :: f in pages && Released(save, m, f) && b in pages[f]
  {
    hide Ids, ById, SegmentMetaEntry.GetFileEntry, HasFile, Blocks.Replaced, Blocks.Created, Blocks.LetGo;
    hide CreatedEntry, Blocks.StillReading, Blocks.NotBy, Blocks.NotGrownBy;
    var e := m[a.id];
    DeleteFileIs(e);
    forall f ensures Released(save, m, f) <==> e.GetFileEntry(Delete) == Some(f) {}
  }

  lemma DeleteFileIs(e: SegmentMetaEntry)
    ensures e.GetFileEntry(Delete) == if e.delete.Some? then Some(e.delete.value.fileEntry) else None
  {}

  /** Readers load what is visible, bulk deletes what is not recyclable; a reader that opens a component holds the
      blocks of its file. */
  lemma BlockLoadsAreLoads(s: Blocks.State, a: Blocks.Action, m: Entries, pages: map<FileEntry, set<BlockNo>>)
    requires Blocks.Enabled(s, a) && Holds(s.entries, m, pages)
    ensures a.Load? ==> Blocks.Apply(s, a).readers[a.v].loaded == VisibleIn(m, s.clock.live[a.v])
    ensures a.Open? ==>
      && m[a.id].GetFileEntry(a.c).Some?
      && Blocks.Apply(s, a).readers[a.v].handles == s.readers[a.v].handles + pages[m[a.id].GetFileEntry(a.c).value]
    ensures s.bulk.Some? ==> forall view: View, id :: s.bulk.value.horizon <= view.snap.xmin ==>
      (Blocks.BulkLoads(s, id) <==> id in m && AnyNotRecyclable.Wants(m[id], view, s.bulk.value.horizon))
  {
    hide SegmentMetaEntry.GetFileEntry;
  }

  /** A collection may remove exactly the recyclable entries, and removes no other. */
  lemma CollectEntryIsCollection(s: Blocks.State, id: SegmentId, m: Entries, env: Env,
                                 pages: map<FileEntry, set<BlockNo>>)
    requires Holds(s.entries, m, pages) && env.Sound() && id in m && s.clock.MayRemoveBelow(env.horizon)
    ensures Blocks.Enabled(s, Blocks.CollectEntry(id, env.horizon)) <==> id !in Collected(m, env)
    ensures id !in Collected(m, env) ==>
      Holds(Blocks.Apply(s, Blocks.CollectEntry(id, env.horizon)).entries, m - {id}, pages)
  {
    hide SegmentMetaEntry.GetFileEntry;
  }

  /** A block is what its page says: new, or marked or not. */
  ghost predicate IsPage(u: Blocks.Use, p: Page) {
    (u.owner.New? <==> p.NewPage?) && (p.Page? ==> u.xmax == p.xmax)
  }

  /** It is found free when its page is recyclable, and marked as its page is. */
  lemma BlockIsPage(s: Blocks.State, a: Blocks.Action, b: BlockNo, p: Page, snap: Snapshot, horizon: Xid)
    requires Blocks.Enabled(s, a) && b in s.blocks && IsPage(s.blocks[b], p) && horizon <= snap.xmin
    requires s.blocks[b].owner.New? ==> s.blocks[b].xmax == INVALID_XID
    ensures Blocks.Takeable(s.blocks[b], horizon) <==> p.Recyclable(snap, horizon)
    ensures a.MarkBlock? && a.b == b && p.Page? && !s.blocks[b].owner.New? ==>
      IsPage(Blocks.Apply(s, a).blocks[b], p.MarkDeleted(s.clock.nextXid))
    ensures a.TakeFree? && a.b == b && a.horizon == horizon && p.Recyclable(snap, horizon) ==>
      IsPage(Blocks.Apply(s, a).blocks[b], FreshPage)
    ensures a.InitNew? && a.b == b ==> IsPage(Blocks.Apply(s, a).blocks[b], FreshPage)
    ensures a.VacuumBlock? && a.b == b && a.horizon == horizon ==> p.Recyclable(snap, horizon)
    ensures (a.VacuumBlock? || a.VacuumNew?) && a.b == b ==> b in Blocks.Apply(s, a).freeSpaceMap
  {}
}
