/**
 Saving and loading the segment entries of an index.  Saving refines an update of a map from segment
 ids to entries; loading reads the entries a snapshot sees.
 */
module SegmentMetas {
  import opened Wrappers
  import BitPacking
  import opened Block
  import opened Storage
  import opened LinkedItems
  import opened GarbageCollection
  import opened ReleasedFiles
  import LinkedBytes

  type Entries = map<SegmentId, SegmentMetaEntry>

  // ---------------------------------------------------------------------------------------------
  // The list as a map
  // ---------------------------------------------------------------------------------------------

  /** The items are the entries of `m`, each once, under its own id. */
  ghost predicate Represents(contents: seq<Items>, m: Entries) {
    Keyed(m) && AllItems(contents) == multiset(m.Values)
  }

  ghost predicate Keyed(m: Entries) {
    forall id :: id in m ==> m[id].segmentId == id
  }

  lemma ValuesOfUpdate(m: Entries, e: SegmentMetaEntry)
    requires Keyed(m) && e.segmentId in m
    ensures Keyed(m[e.segmentId := e])
    ensures multiset(m[e.segmentId := e].Values)
         == multiset(m.Values) - multiset{m[e.segmentId]} + multiset{e}
  {
    var id := e.segmentId;
    var after := m[id := e];
    assert after.Values == m.Values - {m[id]} + {e} by {
      forall x | x in m.Values - {m[id]} + {e} ensures x in after.Values {
        if x != e {
          assert x.segmentId in m && m[x.segmentId] == x;
          assert after[x.segmentId] == x;
        } else {
          assert after[id] == e;
        }
      }
    }
    if e in m.Values {
      assert e == m[id];
    }
  }

  lemma ValuesOfInsert(m: Entries, e: SegmentMetaEntry)
    requires Keyed(m) && e.segmentId !in m
    ensures Keyed(m[e.segmentId := e])
    ensures multiset(m[e.segmentId := e].Values) == multiset(m.Values) + multiset{e}
  {
    var after := m[e.segmentId := e];
    assert e !in m.Values;
    assert after.Values == m.Values + {e} by {
      forall x | x in m.Values + {e} ensures x in after.Values {
        assert after[x.segmentId] == x;
      }
    }
  }

  lemma ValuesOfRemove(m: Entries, id: SegmentId)
    requires Keyed(m) && id in m
    ensures Keyed(m - {id})
    ensures multiset((m - {id}).Values) == multiset(m.Values) - multiset{m[id]}
  {
    var after := m - {id};
    assert after.Values == m.Values - {m[id]} by {
      forall x | x in m.Values - {m[id]} ensures x in after.Values {
        assert x.segmentId in after && after[x.segmentId] == x;
      }
    }
  }

  /** An item of the list is an entry of the map, and an entry of the map is an item. */
  lemma {:induction false} ItemIsListed(contents: seq<Items>, i: nat, k: nat)
    requires i < |contents| && k < |contents[i]|
    ensures contents[i][k] in AllItems(contents)
  {
    if i < |contents| - 1 {
      ItemIsListed(contents[..|contents| - 1], i, k);
    } else {
      assert contents[i][k] in multiset(contents[i]);
    }
  }

  lemma {:induction false} ListedIsItem(contents: seq<Items>, e: SegmentMetaEntry) returns (i: nat, k: nat)
    requires e in AllItems(contents)
    ensures i < |contents| && k < |contents[i]| && contents[i][k] == e
  {
    var n := |contents| - 1;
    if e in multiset(contents[n]) {
      i := n;
      k :| 0 <= k < |contents[n]| && contents[n][k] == e;
    } else {
      i, k := ListedIsItem(contents[..n], e);
    }
  }

  lemma {:induction false} AllItemsSet(contents: seq<Items>, i: nat, items: Items)
    requires i < |contents|
    ensures multiset(contents[i]) <= AllItems(contents)
    ensures AllItems(contents[i := items]) == AllItems(contents) - multiset(contents[i]) + multiset(items)
  {
    var n := |contents| - 1;
    if i < n {
      assert contents[i := items][..n] == contents[..n][i := items];
      AllItemsSet(contents[..n], i, items);
    } else {
      assert contents[i := items][..n] == contents[..n];
    }
  }

  lemma ReplacedItems(items: Items, offset: nat, e: SegmentMetaEntry)
    requires offset < |items|
    ensures multiset(items[offset := e]) == multiset(items) - multiset{items[offset]} + multiset{e}
  {}

  lemma DeletedItems(items: Items, offset: nat)
    requires offset < |items|
    ensures multiset(DeleteItem(items, offset)) == multiset(items) - multiset{items[offset]}
  {
    assert items == items[..offset] + [items[offset]] + items[offset + 1..];
  }

  /** Replacing an item on its page replaces the entry of its id. */
  lemma ReplaceRefines(contents: seq<Items>, m: Entries, i: nat, offset: nat, e: SegmentMetaEntry)
    requires Represents(contents, m) && i < |contents| && offset < |contents[i]|
    requires contents[i][offset].segmentId == e.segmentId
    ensures e.segmentId in m && m[e.segmentId] == contents[i][offset]
    ensures Represents(contents[i := contents[i][offset := e]], m[e.segmentId := e])
  {
    ItemIsListed(contents, i, offset);
    assert contents[i][offset] in m.Values;
    ValuesOfUpdate(m, e);
    AllItemsSet(contents, i, contents[i][offset := e]);
    ReplacedItems(contents[i], offset, e);
    assert contents[i][offset] in multiset(contents[i]);
  }

  /** Deleting an item from its page removes its id. */
  lemma DeleteRefines(contents: seq<Items>, m: Entries, i: nat, offset: nat)
    requires Represents(contents, m) && i < |contents| && offset < |contents[i]|
    ensures var id := contents[i][offset].segmentId;
            && id in m && m[id] == contents[i][offset]
            && Represents(contents[i := DeleteItem(contents[i], offset)], m - {id})
  {
    ItemIsListed(contents, i, offset);
    assert contents[i][offset] in m.Values;
    ValuesOfRemove(m, contents[i][offset].segmentId);
    AllItemsSet(contents, i, DeleteItem(contents[i], offset));
    DeletedItems(contents[i], offset);
    assert contents[i][offset] in multiset(contents[i]);
  }

  lemma AddRefines(before: seq<Items>, after: seq<Items>, m: Entries, e: SegmentMetaEntry, from: nat)
    requires Represents(before, m) && e.segmentId !in m && Added(before, after, [e], from)
    ensures Represents(after, m[e.segmentId := e])
  {
    ValuesOfInsert(m, e);
  }

  /** The map after garbage collection. */
  ghost function Collected(m: Entries, env: Env): Entries {
    map id | id in m && !m[id].Recyclable(env.snapshot, env.horizon) :: m[id].Freeze(env.freezeLimit)
  }

  lemma {:induction false} KeptRefines(items: Items, m: Entries, env: Env)
    requires Keyed(m) && multiset(items) == multiset(m.Values)
    ensures Keyed(Collected(m, env))
    ensures multiset(Kept(items, env)) == multiset(Collected(m, env).Values)
  {
    hide SegmentMetaEntry.Recyclable, SegmentMetaEntry.Freeze;
    if items == [] {
      NoValuesNoKeys(m);
    } else {
      var front, e := items[..|items| - 1], items[|items| - 1];
      assert items == front + [e];
      assert e in multiset(items);
      assert e in m.Values;
      ValuesOfRemove(m, e.segmentId);
      KeptRefines(front, m - {e.segmentId}, env);
      CollectedWithout(m, e.segmentId, env);
      if !e.Recyclable(env.snapshot, env.horizon) {
        FrozenKeepsId(e, env.freezeLimit);
        ValuesOfInsert(Collected(m - {e.segmentId}, env), e.Freeze(env.freezeLimit));
      }
    }
  }

  lemma NoValuesNoKeys(m: Entries)
    requires multiset(m.Values) == multiset{}
    ensures m == map[]
  {
    assert |multiset(m.Values)| == |m.Values|;
    assert m.Values == {};
    KeyHasValue(m);
  }

  lemma KeyHasValue(m: Entries)
    ensures m.Values == {} ==> m.Keys == {}
  {
    if m.Keys != {} {
      var id :| id in m.Keys;
      assert m[id] in m.Values;
    }
  }

  lemma FrozenKeepsId(e: SegmentMetaEntry, freezeLimit: Xid)
    ensures e.Freeze(freezeLimit).segmentId == e.segmentId
  {}

  lemma CollectedWithout(m: Entries, id: SegmentId, env: Env)
    requires id in m
    ensures Collected(m, env) ==
            if m[id].Recyclable(env.snapshot, env.horizon) then Collected(m - {id}, env)
            else Collected(m - {id}, env)[id := m[id].Freeze(env.freezeLimit)]
  {
    hide SegmentMetaEntry.Recyclable, SegmentMetaEntry.Freeze;
  }

  lemma {:induction false} ItemsAreAllItems(pages: Pages, chain: seq<BlockNo>, n: nat)
    requires n <= |chain|
    ensures AllItems(Contents(pages, chain)[..n]) == multiset(ItemsUpTo(pages, chain, n))
  {
    var contents := Contents(pages, chain);
    if n > 0 {
      ItemsAreAllItems(pages, chain, n - 1);
      assert contents[..n][..n - 1] == contents[..n - 1];
    }
  }

  /** Garbage collection drops the recyclable entries from the map, and freezes the others. */
  lemma CollectRefines(before: Pages, chain: seq<BlockNo>, after: Pages, chain': seq<BlockNo>, m: Entries,
                       env: Env)
    requires Represents(Contents(before, chain), m)
    requires ItemsUpTo(after, chain', |chain'|) == Kept(ItemsUpTo(before, chain, |chain|), env)
    ensures Represents(Contents(after, chain'), Collected(m, env))
  {
    ItemsAreAllItems(before, chain, |chain|);
    ItemsAreAllItems(after, chain', |chain'|);
    assert Contents(before, chain)[..|chain|] == Contents(before, chain);
    assert Contents(after, chain')[..|chain'|] == Contents(after, chain');
    KeptRefines(ItemsUpTo(before, chain, |chain|), m, env);
  }

  /** What collection leaves of the map, said of what views can see. */
  lemma CollectedMeans(m: Entries, env: Env, id: SegmentId)
    requires env.Sound()
    ensures id in Collected(m, env) <==> id in m && (SeenBySome(m[id], env.horizon) || StillOwn(m[id], env.horizon))
    ensures id in Collected(m, env) ==> FrozenBelow(m[id], Collected(m, env)[id], env.freezeLimit)
  {
    if id in m {
      RecyclableIff(m[id], env.snapshot, env.horizon);
      FreezeMeans(m[id], env.freezeLimit);
    }
  }

  // ---------------------------------------------------------------------------------------------
  // What a save is given
  // ---------------------------------------------------------------------------------------------

  /** The segment id and component a path parses to, and the rest of its name. */
  datatype Path = Path(id: Option<SegmentId>, component: Option<Component>, rest: nat)

  type Directory = map<Path, FileEntry>

  /** What the merge or the commit says of a segment. */
  datatype SegmentMeta = SegmentMeta(id: SegmentId, maxDoc: nat, numDeletedDocs: nat)

  type Files = map<Component, (FileEntry, Path)>
  type NewFiles = map<SegmentId, Files>

  function Ids(metas: seq<SegmentMeta>): (ids: set<SegmentId>)
    ensures forall id :: id in ids <==> exists i :: 0 <= i < |metas| && metas[i].id == id
  {
    if metas == [] then {} else Ids(metas[..|metas| - 1]) + {metas[|metas| - 1].id}
  }

  /** The last segment of the given id, as a hash map collected from the list has it. */
  function ById(metas: seq<SegmentMeta>, id: SegmentId): (meta: SegmentMeta)
    requires id in Ids(metas)
    ensures meta.id == id && meta in metas
  {
    var last := metas[|metas| - 1];
    if last.id == id then last else ById(metas[..|metas| - 1], id)
  }

  /** The drained files by segment and component; of several for one component, one is kept. */
  ghost predicate Organized(directory: Directory, newFiles: NewFiles) {
    && (forall id, c :: id in newFiles && c in newFiles[id] ==> KeptFile(directory, id, c, newFiles[id][c]))
    && (forall p :: p in directory ==> Filed(newFiles, p))
    && (forall id :: id in newFiles ==> newFiles[id] != map[])
  }

  ghost predicate KeptFile(directory: Directory, id: SegmentId, c: Component, file: (FileEntry, Path)) {
    var (entry, path) := file;
    path in directory && directory[path] == entry && path.id == Some(id) && path.component == Some(c)
  }

  predicate Filed(newFiles: NewFiles, p: Path) {
    p.id.Some? && p.component.Some? && p.id.value in newFiles && p.component.value in newFiles[p.id.value]
  }

  /** Drains the directory into `new_files`, in no particular order. */
  method Organize(directoryEntries: Directory) returns (newFiles: NewFiles)
    requires forall p :: p in directoryEntries ==> p.id.Some? && p.component.Some?  // else a panic
    ensures Organized(directoryEntries, newFiles)
  {
    newFiles := map[];
    var rest := directoryEntries.Keys;
    while rest != {}
      invariant rest <= directoryEntries.Keys
      invariant Organized(map p | p in directoryEntries && p !in rest :: directoryEntries[p], newFiles)
      decreases |rest|
    {
      ghost var before := newFiles;
      var p :| p in rest;
      var id, component := p.id.value, p.component.value;
      var files := if id in newFiles then newFiles[id] else map[];
      newFiles := newFiles[id := files[component := (directoryEntries[p], p)]];
      ghost var seen := map q | q in directoryEntries && q !in rest :: directoryEntries[q];
      rest := rest - {p};
      ghost var seen' := map q | q in directoryEntries && q !in rest :: directoryEntries[q];
      assert seen' == seen[p := directoryEntries[p]];
      OrganizeStep(seen, before, p, directoryEntries[p]);
    }
    assert (map p | p in directoryEntries && p !in rest :: directoryEntries[p]) == directoryEntries;
  }

  lemma OrganizeStep(seen: Directory, newFiles: NewFiles, p: Path, entry: FileEntry)
    requires Organized(seen, newFiles) && p !in seen && p.id.Some? && p.component.Some?
    ensures var id, component := p.id.value, p.component.value;
            var files := if id in newFiles then newFiles[id] else map[];
            Organized(seen[p := entry], newFiles[id := files[component := (entry, p)]])
  {
    var id, component := p.id.value, p.component.value;
    var files := if id in newFiles then newFiles[id] else map[];
    var files' := files[component := (entry, p)];
    assert component in files';
    var after := newFiles[id := files'];
    forall id', c | id' in after && c in after[id'] ensures KeptFile(seen[p := entry], id', c, after[id'][c]) {
      if id' != id || c != component {
        assert KeptFile(seen, id', c, newFiles[id'][c]);
      }
    }
    forall q | q in seen[p := entry] ensures Filed(after, q) {
      assert q == p || Filed(newFiles, q);
    }
  }

  /** A new entry: every component that has a file, no xmax. */
  function CreatedEntry(meta: SegmentMeta, files: Files, xid: Xid): (e: SegmentMetaEntry)
    ensures e.segmentId == meta.id && e.xmin == xid && e.xmax == INVALID_XID && e.maxDoc == meta.maxDoc
    ensures forall c: Component :: e.GetFileEntry(c) == (if c in files then Some(files[c].0) else None)
    ensures e.delete.Some? ==> e.delete.value.numDeletedDocs == meta.numDeletedDocs
  {
    SegmentMetaEntry(meta.id, meta.maxDoc, xid, INVALID_XID,
                     FileOf(files, Postings), FileOf(files, Positions), FileOf(files, FastFields),
                     FileOf(files, FieldNorms), FileOf(files, Terms), FileOf(files, Store),
                     FileOf(files, TempStore),
                     if Delete in files then Some(DeleteEntry(files[Delete].0, meta.numDeletedDocs)) else None)
  }

  function FileOf(files: Files, c: Component): Option<FileEntry> {
    if c in files then Some(files[c].0) else None
  }

  /** A modified entry: only its delete file is new. */
  function ModifiedEntry(e: SegmentMetaEntry, meta: SegmentMeta, file: FileEntry): (r: SegmentMetaEntry)
    ensures r.segmentId == e.segmentId && r.xmin == e.xmin && r.xmax == e.xmax && r.maxDoc == e.maxDoc
    ensures forall c: Component :: r.GetFileEntry(c) == if c == Delete then Some(file) else e.GetFileEntry(c)
    ensures r.delete == Some(DeleteEntry(file, meta.numDeletedDocs))
  {
    e.(delete := Some(DeleteEntry(file, meta.numDeletedDocs)))
  }

  // ---------------------------------------------------------------------------------------------
  // What a save does to the map
  // ---------------------------------------------------------------------------------------------

  /** A save: the files it was given, and the ids it creates, modifies and deletes. */
  datatype Save = Save(newMeta: seq<SegmentMeta>, prevMeta: seq<SegmentMeta>, newFiles: NewFiles, xid: Xid) {
    function Created(): set<SegmentId> {
      set id | id in Ids(newMeta) && id !in Ids(prevMeta) && id in newFiles
    }
    function Modified(): set<SegmentId> {
      set id | id in Ids(prevMeta) && id in Ids(newMeta) && id in newFiles
    }
    function Deleted(): set<SegmentId> {
      set id | id in Ids(prevMeta) && id !in Ids(newMeta)
    }

    /** The demands the code asserts or panics on, and that new segments, whose ids are random, are new. */
    ghost predicate Acceptable(m: Entries) {
      && (forall id :: id in Deleted() ==> id in m)
      && (forall id :: id in Modified() ==> id in m && newFiles[id].Keys == {Delete})
      && (forall id :: id in Created() ==> id !in m)
    }

    ghost function After(m: Entries): Entries
      requires Acceptable(m)
    {
      map id | id in m.Keys + Created() ::
        if id in Created() then CreatedEntry(ById(newMeta, id), newFiles[id], xid)
        else if id in Modified() then ModifiedEntry(m[id], ById(newMeta, id), newFiles[id][Delete].0)
        else if id in Deleted() then m[id].(xmax := xid)
        else m[id]
    }

    /** The files nobody took: they belong to segments this save is not about. */
    function LeftOver(): NewFiles {
      map id | id in newFiles && id !in Ids(newMeta) :: newFiles[id]
    }
  }

  /** Handing back: the paths and entries of `new_files`. */
  ghost predicate HandedBack(newFiles: NewFiles, directory: Directory) {
    && (forall id, c :: id in newFiles && c in newFiles[id] ==>
          newFiles[id][c].1 in directory && directory[newFiles[id][c].1] == newFiles[id][c].0)
    && (forall p :: p in directory ==>
          Filed(newFiles, p) && newFiles[p.id.value][p.component.value] == (directory[p], p))
  }

  /** No two drained files are for the same component of the same segment. */
  ghost predicate OneEach(directory: Directory) {
    forall p, q :: p in directory && q in directory && p.id == q.id && p.component == q.component ==> p == q
  }

  /** Nothing is handed back that was not drained. */
  lemma OnlyDrainedHandedBack(directory: Directory, save: Save, back: Directory, q: Path)
    requires Organized(directory, save.newFiles) && HandedBack(save.LeftOver(), back) && q in back
    ensures q in directory && back[q] == directory[q]
    ensures q.id.Some? && q.id.value !in Ids(save.newMeta)
  {
    assert Filed(save.LeftOver(), q);
    var id, c := q.id.value, q.component.value;
    assert KeptFile(directory, id, c, save.newFiles[id][c]);
  }

  ghost predicate Named(metas: seq<SegmentMeta>, id: SegmentId) {
    exists s :: s in metas && s.id == id
  }

  ghost predicate Drained(directory: Directory, id: SegmentId) {
    exists p :: p in directory && p.id == Some(id)
  }

  ghost predicate DrainedAs(directory: Directory, id: SegmentId, c: Component, f: FileEntry) {
    exists p :: p in directory && p.id == Some(id) && p.component == Some(c) && directory[p] == f
  }

  /**
   The map after a save, said of the metas and the drained files: a segment named now and not before, with
   files, is new; one named before and not now gets the transaction's id as xmax, and nothing else of it
   changes; one named both times, with files, gets the delete file, and nothing else of it changes; all others
   stay as they were.
   */
  lemma AfterMeans(directory: Directory, save: Save, m: Entries, id: SegmentId)
    requires Organized(directory, save.newFiles) && save.Acceptable(m)
    ensures var now, before, drained := Named(save.newMeta, id), Named(save.prevMeta, id), Drained(directory, id);
            && (id in save.After(m) <==> id in m || (now && !before && drained))
            && (id in m ==>
                  var e := save.After(m)[id];
                  && e == m[id].(xmax := e.xmax, delete := e.delete)
                  && e.xmax == (if before && !now then save.xid else m[id].xmax)
                  && if before && now && drained
                     then e.delete.Some? && DrainedAs(directory, id, Delete, e.delete.value.fileEntry)
                          && exists s :: s in save.newMeta && s.id == id
                                         && s.numDeletedDocs == e.delete.value.numDeletedDocs
                     else e.delete == m[id].delete)
  {
    hide CreatedEntry, ModifiedEntry;
    NamedIff(save.newMeta, id);
    NamedIff(save.prevMeta, id);
    DrainedIff(directory, save.newFiles, id);
    if id in save.Modified() {
      var file := save.newFiles[id][Delete];
      assert KeptFile(directory, id, Delete, file);
      var s := ById(save.newMeta, id);
      ModifiedIs(m[id], s, file.0);
    }
  }

  lemma ModifiedIs(e: SegmentMetaEntry, meta: SegmentMeta, file: FileEntry)
    ensures ModifiedEntry(e, meta, file) == e.(delete := Some(DeleteEntry(file, meta.numDeletedDocs)))
  {}

  lemma NamedIff(metas: seq<SegmentMeta>, id: SegmentId)
    ensures Named(metas, id) <==> id in Ids(metas)
  {
    if id in Ids(metas) {
      assert ById(metas, id) in metas;
    }
    if s :| s in metas && s.id == id {
      var i :| 0 <= i < |metas| && metas[i] == s;
    }
  }

  lemma DrainedIff(directory: Directory, newFiles: NewFiles, id: SegmentId)
    requires Organized(directory, newFiles)
    ensures Drained(directory, id) <==> id in newFiles
  {
    if id in newFiles {
      NotEmpty(newFiles[id]);
      var c :| c in newFiles[id].Keys;
      assert KeptFile(directory, id, c, newFiles[id][c]);
    }
    if p :| p in directory && p.id == Some(id) {
      assert Filed(newFiles, p);
    }
  }

  /** And what a new segment's entry is: the transaction's, with the drained file of each component. */
  lemma CreatedMeans(directory: Directory, save: Save, m: Entries, id: SegmentId)
    requires Organized(directory, save.newFiles) && save.Acceptable(m) && id in save.After(m) && id !in m
    ensures var e := save.After(m)[id];
            && e.segmentId == id && e.xmin == save.xid && e.xmax == INVALID_XID
            && (exists s :: s in save.newMeta && s.id == id && s.maxDoc == e.maxDoc
                            && (e.delete.Some? ==> s.numDeletedDocs == e.delete.value.numDeletedDocs))
            && (forall c: Component, f :: e.GetFileEntry(c) == Some(f) ==> DrainedAs(directory, id, c, f))
            && (forall c: Component, f :: DrainedAs(directory, id, c, f) ==> e.GetFileEntry(c).Some?)
  {
    hide CreatedEntry, ById, Ids;
    var e, s, files := save.After(m)[id], ById(save.newMeta, id), save.newFiles[id];
    forall c: Component, f | e.GetFileEntry(c) == Some(f) ensures DrainedAs(directory, id, c, f) {
      assert KeptFile(directory, id, c, files[c]);
    }
    forall c: Component, f | DrainedAs(directory, id, c, f) ensures e.GetFileEntry(c).Some? {
      var p :| p in directory && p.id == Some(id) && p.component == Some(c) && directory[p] == f;
      assert Filed(save.newFiles, p);
    }
  }

  /**
   With one file per component, every drained file ends up in the entry of its segment, or is handed
   back unchanged.
   */
  lemma NoFileIsLost(directory: Directory, save: Save, m: Entries, back: Directory, p: Path)
    requires Organized(directory, save.newFiles) && OneEach(directory) && save.Acceptable(m)
    requires HandedBack(save.LeftOver(), back) && p in directory
    ensures p.id.Some? && p.component.Some?
    ensures var id, c := p.id.value, p.component.value;
            if id in Ids(save.newMeta)
            then && id in save.After(m) && save.After(m)[id].GetFileEntry(c) == Some(directory[p])
                 && p !in back
            else p in back && back[p] == directory[p]
  {
    hide CreatedEntry, ModifiedEntry, SegmentMetaEntry.GetFileEntry, Ids, ById;
    assert Filed(save.newFiles, p);
    var id, c := p.id.value, p.component.value;
    var file := save.newFiles[id][c];
    assert KeptFile(directory, id, c, file);
    assert file == (directory[p], p);
    if id in Ids(save.newMeta) {
      assert id in save.Created() || id in save.Modified();
      assert p !in back by {
        if p in back {
          OnlyDrainedHandedBack(directory, save, back, p);
        }
      }
    } else {
      assert id in save.LeftOver() && save.LeftOver()[id][c] == file;
    }
  }

  // ---------------------------------------------------------------------------------------------
  // Finding and changing entries on their pages
  // ---------------------------------------------------------------------------------------------

  /** The entry is on page `b` of the list. */
  ghost predicate Located(pages: Pages, chain: seq<BlockNo>, e: SegmentMetaEntry, b: BlockNo) {
    b in chain && e in ItemsAt(pages, b)
  }

  /** Entries with another id are still on the pages they were on. */
  ghost predicate KeepsOthers(before: Pages, chain: seq<BlockNo>, after: Pages, chain': seq<BlockNo>,
                              id: SegmentId)
  {
    forall e, b :: Located(before, chain, e, b) && e.segmentId != id ==> Located(after, chain', e, b)
  }

  type Found = map<SegmentId, (SegmentMetaEntry, BlockNo)>

  ghost predicate AllLocated(pages: Pages, chain: seq<BlockNo>, m: Entries, found: Found, ids: set<SegmentId>) {
    forall id :: id in ids ==>
      id in found && id in m && found[id].0 == m[id] && Located(pages, chain, m[id], found[id].1)
  }

  /** Looks up every id; each is there. */
  method FindAll(list: LinkedItemList, ids: set<SegmentId>, ghost m: Entries) returns (found: Found)
    requires list.Valid() && Represents(Contents(list.rel.pages, list.chain), m) && ids <= m.Keys
    ensures AllLocated(list.rel.pages, list.chain, m, found, ids)
  {
    hide Linked, ItemLayout, AllItems;
    found := map[];
    var todo := ids;
    while todo != {}
      invariant todo <= ids && AllLocated(list.rel.pages, list.chain, m, found, ids - todo)
      decreases |todo|
    {
      var id :| id in todo;
      var r, at := list.LookupEx((e: SegmentMetaEntry) => e.segmentId == id);
      if r.None? {
        MissingIsMissing(Contents(list.rel.pages, list.chain), m, id);
        assert false;
      }
      PresentIsEntry(Contents(list.rel.pages, list.chain), m, at, r.value.2);
      found := found[id := (r.value.0, r.value.1)];
      todo := todo - {id};
    }
  }

  lemma EntryHasItsId(contents: seq<Items>, m: Entries, id: SegmentId)
    requires Represents(contents, m) && id in m
    ensures m[id].segmentId == id
  {}

  lemma MissingIsMissing(contents: seq<Items>, m: Entries, id: SegmentId)
    requires Represents(contents, m)
    requires forall i, k :: 0 <= i < |contents| && 0 <= k < |contents[i]| ==> contents[i][k].segmentId != id
    ensures id !in m
  {
    if id in m {
      assert m[id] in m.Values;
      var i, k := ListedIsItem(contents, m[id]);
    }
  }

  lemma PresentIsEntry(contents: seq<Items>, m: Entries, i: nat, k: nat)
    requires Represents(contents, m) && i < |contents| && k < |contents[i]|
    ensures var e := contents[i][k]; e.segmentId in m && m[e.segmentId] == e
  {
    ItemIsListed(contents, i, k);
    assert contents[i][k] in m.Values;
  }

  /** Overwrites the entry in its place; `false`, and nothing done, if it no longer fits there. */
  method Overwrite(list: LinkedItemList, blockno: BlockNo, e: SegmentMetaEntry, ghost m: Entries)
    returns (didReplace: bool)
    requires list.Valid() && Represents(Contents(list.rel.pages, list.chain), m)
    requires e.segmentId in m && Located(list.rel.pages, list.chain, m[e.segmentId], blockno)
    modifies list.rel`pages
    ensures list.Valid()
    ensures didReplace ==> Represents(Contents(list.rel.pages, list.chain), m[e.segmentId := e])
    ensures !didReplace ==> list.rel.pages == old(list.rel.pages)
    ensures KeepsOthers(old(list.rel.pages), list.chain, list.rel.pages, list.chain, e.segmentId)
    ensures Untouched(old(list.rel.pages), list.rel.pages, list.chain)
    ensures ItemCost(e) <= ItemCost(m[e.segmentId]) ==> didReplace
  {
    hide Linked, Represents, ItemCost, Used, AllItems;
    ghost var i :| 0 <= i < |list.chain| && list.chain[i] == blockno;
    NextInChain(list.rel.pages, list.headerBlockno, list.chain, i);
    var page := list.rel.pages[blockno];
    EntryHasItsId(Contents(list.rel.pages, list.chain), m, e.segmentId);
    ghost var k :| 0 <= k < |page.items| && page.items[k] == m[e.segmentId];
    var offset := FindItem(page.items, (item: SegmentMetaEntry) => item.segmentId == e.segmentId);
    ReplaceRefines(Contents(list.rel.pages, list.chain), m, i, offset.value, e);
    var replaced := ReplaceItem(page.items, offset.value, e);
    if replaced.None? {
      return false;
    }
    SetItems(list.rel.pages, list.headerBlockno, list.chain, i, replaced.value);
    ReplaceKeepsOthers(list.rel.pages, list.chain, i, offset.value, e);
    list.rel.Put(blockno, page.(items := replaced.value));
    return true;
  }

  lemma ReplaceKeepsOthers(pages: Pages, chain: seq<BlockNo>, i: nat, offset: nat, e: SegmentMetaEntry)
    requires i < |chain| && chain[i] in pages && pages[chain[i]].Page?
    requires offset < |pages[chain[i]].items| && pages[chain[i]].items[offset].segmentId == e.segmentId
    ensures var after := pages[chain[i] := pages[chain[i]].(items := pages[chain[i]].items[offset := e])];
            KeepsOthers(pages, chain, after, chain, e.segmentId)
  {
    var items := pages[chain[i]].items;
    var after := pages[chain[i] := pages[chain[i]].(items := items[offset := e])];
    forall x, b | Located(pages, chain, x, b) && x.segmentId != e.segmentId ensures Located(after, chain, x, b) {
      if b == chain[i] {
        var k :| 0 <= k < |items| && items[k] == x;
        assert items[offset := e][k] == x;
      }
    }
  }

  lemma DeleteKeepsOthers(pages: Pages, chain: seq<BlockNo>, i: nat, offset: nat)
    requires i < |chain| && chain[i] in pages && pages[chain[i]].Page?
    requires offset < |pages[chain[i]].items|
    ensures var items := pages[chain[i]].items;
            var after := pages[chain[i] := pages[chain[i]].(items := DeleteItem(items, offset))];
            KeepsOthers(pages, chain, after, chain, items[offset].segmentId)
  {
    var items := pages[chain[i]].items;
    var after := pages[chain[i] := pages[chain[i]].(items := DeleteItem(items, offset))];
    forall x, b | Located(pages, chain, x, b) && x.segmentId != items[offset].segmentId
      ensures Located(after, chain, x, b)
    {
      if b == chain[i] {
        var k :| 0 <= k < |items| && items[k] == x;
        assert DeleteItem(items, offset)[if k < offset then k else k - 1] == x;
      }
    }
  }

  lemma GrownKeepsAll(before: Pages, chain: seq<BlockNo>, after: Pages, chain': seq<BlockNo>, id: SegmentId)
    requires chain <= chain' && Grown(Contents(before, chain), Contents(after, chain'))
    ensures KeepsOthers(before, chain, after, chain', id)
  {
    forall x, b | Located(before, chain, x, b) && x.segmentId != id ensures Located(after, chain', x, b) {
      var i :| 0 <= i < |chain| && chain[i] == b;
      assert Contents(before, chain)[i] <= Contents(after, chain')[i];
      var k :| 0 <= k < |ItemsAt(before, b)| && ItemsAt(before, b)[k] == x;
      assert ItemsAt(after, b)[k] == x;
    }
  }

  /** No page that others count on has changed since the list was at `before`, with the given chain. */
  ghost predicate SparedBy(list: LinkedItemList, before: Pages, chain: seq<BlockNo>)
    reads list, list.rel
  {
    Spares(before, list.rel.pages, list.headerBlockno, chain, list.chain, list.rel.snapshot, list.rel.horizon)
  }

  lemma UntouchedSpares(before: Pages, after: Pages, header: BlockNo, chain: seq<BlockNo>, chain': seq<BlockNo>,
                        snap: Snapshot, horizon: Xid)
    requires Untouched(before, after, chain) && forall b :: b in chain' ==> b in chain
    ensures Spares(before, after, header, chain, chain', snap, horizon)
  {}

  /** Deletes the entry and adds the new version somewhere, starting on the same page. */
  method Move(list: LinkedItemList, blockno: BlockNo, e: SegmentMetaEntry, ghost m: Entries)
    returns (r: Result<()>)
    requires list.Valid() && Represents(Contents(list.rel.pages, list.chain), m)
    requires e.segmentId in m && Located(list.rel.pages, list.chain, m[e.segmentId], blockno)
    modifies list`chain, list.rel`pages, list.rel`nblocks, list.rel`freeSpaceMap
    ensures list.rel.Valid()
    ensures r.Failure? ==> list.rel.Full()
    ensures r.Success? ==>
      && list.Valid()
      && Represents(Contents(list.rel.pages, list.chain), m[e.segmentId := e])
      && KeepsOthers(old(list.rel.pages), old(list.chain), list.rel.pages, list.chain, e.segmentId)
      && SparedBy(list, old(list.rel.pages), old(list.chain))
  {
    hide Linked, Represents, ItemCost, Used, AllItems, Grown, Spares;
    ghost var i :| 0 <= i < |list.chain| && list.chain[i] == blockno;
    NextInChain(list.rel.pages, list.headerBlockno, list.chain, i);
    var page := list.rel.pages[blockno];
    EntryHasItsId(Contents(list.rel.pages, list.chain), m, e.segmentId);
    ghost var k :| 0 <= k < |page.items| && page.items[k] == m[e.segmentId];
    var offset := FindItem(page.items, (item: SegmentMetaEntry) => item.segmentId == e.segmentId);
    DeleteRefines(Contents(list.rel.pages, list.chain), m, i, offset.value);
    SetItems(list.rel.pages, list.headerBlockno, list.chain, i, DeleteItem(page.items, offset.value));
    DeleteKeepsOthers(list.rel.pages, list.chain, i, offset.value);
    list.rel.Put(blockno, page.(items := DeleteItem(page.items, offset.value)));
    ghost var mid, chain := list.rel.pages, list.chain;
    UntouchedSpares(old(list.rel.pages), mid, list.headerBlockno, chain, chain, list.rel.snapshot, list.rel.horizon);
    var added, from := list.AddItems([e], Some(blockno));
    if added.Failure? {
      return added;
    }
    AddRefines(Contents(mid, chain), Contents(list.rel.pages, list.chain), m - {e.segmentId}, e, from);
    assert (m - {e.segmentId})[e.segmentId := e] == m[e.segmentId := e];
    GrownKeepsAll(mid, chain, list.rel.pages, list.chain, e.segmentId);
    SparesTransitive(old(list.rel.pages), mid, list.rel.pages, list.headerBlockno, chain, chain, list.chain,
                     list.rel.snapshot, list.rel.horizon);
    return Success(());
  }

  // ---------------------------------------------------------------------------------------------
  // Saving
  // ---------------------------------------------------------------------------------------------

  const COMPONENTS: set<Component> :=
    {Postings, Positions, FastFields, FieldNorms, Terms, Store, TempStore, Delete}

  function FilesOf(e: SegmentMetaEntry): (files: set<FileEntry>) {
    set c | c in COMPONENTS && e.GetFileEntry(c).Some? :: e.GetFileEntry(c).value
  }

  /** One of the files the entry names. */
  predicate HasFile(e: SegmentMetaEntry, f: FileEntry) {
    || Some(f) == e.postings || Some(f) == e.positions || Some(f) == e.fastFields || Some(f) == e.fieldNorms
    || Some(f) == e.terms || Some(f) == e.store || Some(f) == e.tempStore
    || (e.delete.Some? && f == e.delete.value.fileEntry)
  }

  /** The files taken component by component are all files of the entry. */
  lemma FilesOfIff(e: SegmentMetaEntry, f: FileEntry)
    ensures f in FilesOf(e) <==> HasFile(e, f)
    ensures f in FilesOf(e) <==> exists c: Component :: e.GetFileEntry(c) == Some(f)
  {
    EveryComponent();
    if c: Component :| e.GetFileEntry(c) == Some(f) {
      assert c in COMPONENTS && e.GetFileEntry(c).value == f;
    }
    if HasFile(e, f) {
      var c := if Some(f) == e.postings then Postings else if Some(f) == e.positions then Positions
               else if Some(f) == e.fastFields then FastFields else if Some(f) == e.fieldNorms then FieldNorms
               else if Some(f) == e.terms then Terms else if Some(f) == e.store then Store
               else if Some(f) == e.tempStore then TempStore else Delete;
      assert e.GetFileEntry(c) == Some(f);
    }
  }

  lemma EveryComponent()
    ensures forall c: Component :: c in COMPONENTS
  {
    forall c: Component ensures c in COMPONENTS {
      match c case Postings => case Positions => case FastFields => case FieldNorms => case Terms =>
              case Store => case TempStore => case Delete =>
    }
  }

  /** The entries partly saved: the ids in `todo` are still as they were. */
  ghost predicate Partly(save: Save, m: Entries, cur: Entries, todo: set<SegmentId>)
    requires save.Acceptable(m)
  {
    && cur.Keys == m.Keys
    && forall id :: id in m ==> cur[id] == if id in todo then m[id] else save.After(m)[id]
  }

  /** In the middle of a save: the list represents the entries partly saved, and those in `todo` are
      where they were found. */
  ghost predicate Saving(pages: Pages, chain: seq<BlockNo>, save: Save, m: Entries, cur: Entries,
                         found: Found, todo: set<SegmentId>)
    requires save.Acceptable(m)
  {
    && Keyed(m)
    && Represents(Contents(pages, chain), cur)
    && Partly(save, m, cur, todo)
    && AllLocated(pages, chain, m, found, todo)
  }

  lemma SavingStarts(pages: Pages, chain: seq<BlockNo>, save: Save, m: Entries, found: Found)
    requires save.Acceptable(m) && Represents(Contents(pages, chain), m)
    requires AllLocated(pages, chain, m, found, save.Deleted() + save.Modified())
    ensures Saving(pages, chain, save, m, m, found, save.Deleted() + save.Modified())
  {}

  lemma SavingFacts(pages: Pages, chain: seq<BlockNo>, save: Save, m: Entries, cur: Entries, found: Found,
                    todo: set<SegmentId>, id: SegmentId)
    requires save.Acceptable(m) && Saving(pages, chain, save, m, cur, found, todo) && id in todo
    ensures Represents(Contents(pages, chain), cur)
    ensures id in found && id in m && id in cur && m[id].segmentId == id
    ensures found[id].0 == m[id] == cur[id] && Located(pages, chain, m[id], found[id].1)
  {}

  lemma SavingStep(before: Pages, chain: seq<BlockNo>, after: Pages, chain': seq<BlockNo>, save: Save,
                   m: Entries, cur: Entries, found: Found, todo: set<SegmentId>, id: SegmentId,
                   e: SegmentMetaEntry)
    requires save.Acceptable(m) && Saving(before, chain, save, m, cur, found, todo) && id in todo
    requires id in m && save.After(m)[id] == e
    requires Represents(Contents(after, chain'), cur[id := e])
    requires KeepsOthers(before, chain, after, chain', id)
    ensures Saving(after, chain', save, m, cur[id := e], found, todo - {id})
  {}

  lemma IdsAreKnown(save: Save, m: Entries)
    requires save.Acceptable(m)
    ensures save.Deleted() <= m.Keys && save.Modified() <= m.Keys && save.Deleted() !! save.Modified()
  {}

  ghost function BackendOf(list: LinkedItemList): Backend
    reads list.rel`snapshot, list.rel`horizon, list.rel`nextXid
  {
    Backend(list.headerBlockno, list.rel.snapshot, list.rel.horizon, list.rel.nextXid)
  }

  /** Marking files leaves the list as it is. */
  lemma MarkedKeepsList(before: Pages, after: Pages, env: Backend, chain: seq<BlockNo>, files: FileMap,
                        fs: set<FileEntry>)
    requires ItemLayout(before, env.header, chain) && OnDisk(before, env, chain, files)
    requires MarkedIn(before, after, AllBlocks(fs, files), env.nextXid)
    ensures ItemLayout(after, env.header, chain) && Contents(after, chain) == Contents(before, chain)
    ensures forall b :: b in chain ==> ItemsAt(after, b) == ItemsAt(before, b)
  {
    hide OnDisk, AllBlocks;
    FilesAreApart(before, env, chain, files, fs);
  }

  lemma SavingKept(before: Pages, after: Pages, chain: seq<BlockNo>, save: Save, m: Entries, cur: Entries,
                   found: Found, todo: set<SegmentId>)
    requires save.Acceptable(m) && Saving(before, chain, save, m, cur, found, todo)
    requires Contents(after, chain) == Contents(before, chain)
    requires forall b :: b in chain ==> ItemsAt(after, b) == ItemsAt(before, b)
    ensures Saving(after, chain, save, m, cur, found, todo)
  {
    hide Represents, Partly;
  }

  /** Marks the files, which leaves the list and what is being saved as it is. */
  method Release(list: LinkedItemList, fs: set<FileEntry>, ghost files: FileMap, ghost save: Save,
                 ghost m: Entries, ghost cur: Entries, ghost found: Found, ghost todo: set<SegmentId>,
                 ghost start: Pages, ghost chain: seq<BlockNo>, ghost gone: set<FileEntry>)
    requires list.Valid() && save.Acceptable(m) && Saving(list.rel.pages, list.chain, save, m, cur, found, todo)
    requires OnDisk(start, BackendOf(list), chain, files) && fs <= files.Keys
    requires Releases(start, list.rel.pages, BackendOf(list), chain, list.chain, AllBlocks(gone, files))
    modifies list.rel`pages
    ensures list.Valid() && Saving(list.rel.pages, list.chain, save, m, cur, found, todo)
    ensures Releases(start, list.rel.pages, BackendOf(list), chain, list.chain, AllBlocks(gone + fs, files))
  {
    hide Linked, ItemLayout, Saving, OnDisk, MarkedIn, AllBlocks, Releases, Save.Acceptable;
    ghost var before, env := list.rel.pages, BackendOf(list);
    StillOnDisk(start, before, env, chain, list.chain, files, AllBlocks(gone, files));
    MarkFiles(list.rel, fs, env, list.chain, files);
    MarkedKeepsList(before, list.rel.pages, env, list.chain, files, fs);
    SavingKept(before, list.rel.pages, list.chain, save, m, cur, found, todo);
    ReleasesMarked(start, before, list.rel.pages, env, chain, list.chain, AllBlocks(gone, files), AllBlocks(fs, files));
    AllBlocksOfBoth(gone, fs, files);
  }

  ghost function FilesOfAll(m: Entries, ids: set<SegmentId>): set<FileEntry> {
    set id, f | id in ids && id in m && f in FilesOf(m[id]) :: f
  }

  lemma FilesOfAllMore(m: Entries, ids: set<SegmentId>, id: SegmentId)
    requires id in m
    ensures FilesOfAll(m, ids + {id}) == FilesOfAll(m, ids) + FilesOf(m[id])
  {}

  /** Sets the xmax of one deleted entry, and marks its files deleted. */
  method DeleteSegment(list: LinkedItemList, save: Save, found: Found, id: SegmentId, ghost m: Entries,
                     ghost cur0: Entries, ghost todo: set<SegmentId>, ghost start: Pages, ghost files: FileMap,
                     ghost gone: set<FileEntry>)
    returns (ghost cur: Entries)
    requires list.Valid() && save.Acceptable(m) && id in save.Deleted() && id in todo
    requires Saving(list.rel.pages, list.chain, save, m, cur0, found, todo) && id in found
    requires OnDisk(start, BackendOf(list), list.chain, files) && id in m && FilesOf(m[id]) <= files.Keys
    requires Releases(start, list.rel.pages, BackendOf(list), list.chain, list.chain, AllBlocks(gone, files))
    modifies list.rel`pages
    ensures list.Valid() && Saving(list.rel.pages, list.chain, save, m, cur, found, todo - {id})
    ensures Releases(start, list.rel.pages, BackendOf(list), list.chain, list.chain,
                     AllBlocks(gone + FilesOf(m[id]), files))
  {
    hide Linked, ItemLayout, Represents, FilesOf, Located, Save.After, Saving, KeepsOthers, ItemCost;
    hide Save.Deleted, Save.Acceptable, Relation.Valid, Releases, OnDisk, AllBlocks, Untouched, Spares;
    ghost var before, env := list.rel.pages, BackendOf(list);
    SavingFacts(before, list.chain, save, m, cur0, found, todo, id);
    var (entry, blockno) := found[id];
    var e := entry.(xmax := save.xid);
    DeletedEntryIsAfter(save, m, id);
    var didReplace := Overwrite(list, blockno, e, cur0);
    assert didReplace;
    SavingStep(before, list.chain, list.rel.pages, list.chain, save, m, cur0, found, todo, id, e);
    cur := cur0[id := e];
    UntouchedSpares(before, list.rel.pages, list.headerBlockno, list.chain, list.chain, env.snap, env.horizon);
    BackendIsValid(list);
    ReleasesSpared(start, before, list.rel.pages, env, list.chain, list.chain, list.chain, AllBlocks(gone, files));
    SameFiles(m[id], save.xid);
    Release(list, FilesOf(e), files, save, m, cur, found, todo - {id}, start, list.chain, gone);
  }

  /** Sets the xmax of every deleted entry, and marks its files deleted. */
  method DeleteEntries(list: LinkedItemList, save: Save, found: Found, ghost m: Entries, ghost files: FileMap)
    returns (ghost marked: set<FileEntry>, ghost cur: Entries)
    requires list.Valid() && save.Acceptable(m)
    requires Saving(list.rel.pages, list.chain, save, m, m, found, save.Deleted() + save.Modified())
    requires OnDisk(list.rel.pages, BackendOf(list), list.chain, files)
    requires forall id :: id in save.Deleted() ==> FilesOf(m[id]) <= files.Keys
    modifies list.rel`pages
    ensures list.Valid() && Saving(list.rel.pages, list.chain, save, m, cur, found, save.Modified())
    ensures marked == FilesOfAll(m, save.Deleted())
    ensures forall f :: f in marked <==> exists id :: id in save.Deleted() && HasFile(m[id], f)
    ensures Releases(old(list.rel.pages), list.rel.pages, BackendOf(list), list.chain, list.chain,
                     AllBlocks(marked, files))
  {
    hide ItemLayout, FilesOf, Saving, Represents, Located, Contents, ItemsAt, Save.Acceptable, Relation.Valid;
    hide Save.Deleted, Save.Modified, Releases, OnDisk, AllBlocks, FilesOfAll, HasFile;
    IdsAreKnown(save, m);
    var deleted, modified := save.Deleted(), save.Modified();
    var todo := deleted;
    ghost var start := list.rel.pages;
    cur, marked := m, {};
    AllBlocksOfNothing(files);
    ReleasesNothing(start, BackendOf(list), list.chain);
    NoFiles(m, deleted - todo);
    while todo != {}
      invariant todo <= deleted && list.Valid()
      invariant Saving(list.rel.pages, list.chain, save, m, cur, found, todo + modified)
      invariant marked == FilesOfAll(m, deleted - todo)
      invariant Releases(start, list.rel.pages, BackendOf(list), list.chain, list.chain, AllBlocks(marked, files))
      decreases |todo|
    {
      var id :| id in todo;
      SavingFacts(list.rel.pages, list.chain, save, m, cur, found, todo + modified, id);
      cur := DeleteSegment(list, save, found, id, m, cur, todo + modified, start, files, marked);
      FilesOfAllMore(m, deleted - todo, id);
      LessToDo(deleted, modified, todo, id);
      marked := marked + FilesOf(m[id]);
      todo := todo - {id};
    }
    assert {} + modified == modified && deleted - todo == deleted;
    FilesOfAllIff(m, deleted);
  }

  lemma FilesOfAllIff(m: Entries, ids: set<SegmentId>)
    requires ids <= m.Keys
    ensures forall f :: f in FilesOfAll(m, ids) <==> exists id :: id in ids && HasFile(m[id], f)
  {
    hide FilesOf, HasFile;
    forall f ensures f in FilesOfAll(m, ids) <==> exists id :: id in ids && HasFile(m[id], f) {
      forall id | id in ids ensures f in FilesOf(m[id]) <==> HasFile(m[id], f) {
        FilesOfIff(m[id], f);
      }
    }
  }

  lemma LessToDo(deleted: set<SegmentId>, modified: set<SegmentId>, todo: set<SegmentId>, id: SegmentId)
    requires deleted !! modified && todo <= deleted && id in todo
    ensures todo + modified - {id} == (todo - {id}) + modified
    ensures deleted - (todo - {id}) == deleted - todo + {id}
  {}

  lemma NoFiles(m: Entries, ids: set<SegmentId>)
    requires ids == {}
    ensures FilesOfAll(m, ids) == {}
  {}

  lemma BackendIsValid(list: LinkedItemList)
    requires list.Valid()
    ensures BackendOf(list).Valid()
  {}

  lemma DeletedEntryIsAfter(save: Save, m: Entries, id: SegmentId)
    requires save.Acceptable(m) && id in save.Deleted()
    ensures id in m && save.After(m)[id] == m[id].(xmax := save.xid)
    ensures ItemCost(m[id].(xmax := save.xid)) <= ItemCost(m[id])
  {}

  lemma SameFiles(e: SegmentMetaEntry, xid: Xid)
    ensures FilesOf(e.(xmax := xid)) == FilesOf(e)
  {
    assert forall c: Component :: e.(xmax := xid).GetFileEntry(c) == e.GetFileEntry(c);
  }

  /** Replaces the delete file of every modified entry; the ones replaced are to be marked deleted. */
  method ModifyEntries(list: LinkedItemList, save: Save, found: Found, ghost m: Entries, ghost cur0: Entries)
    returns (r: Result<set<FileEntry>>, ghost cur: Entries)
    requires list.Valid() && save.Acceptable(m)
    requires Saving(list.rel.pages, list.chain, save, m, cur0, found, save.Modified())
    modifies list`chain, list.rel`pages, list.rel`nblocks, list.rel`freeSpaceMap
    ensures list.rel.Valid()
    ensures r.Failure? ==> list.rel.Full()
    ensures r.Success? ==>
      && list.Valid() && Saving(list.rel.pages, list.chain, save, m, cur, found, {})
      && (forall f :: f in r.value <==>
            exists id :: id in save.Modified() && m[id].delete.Some? && m[id].delete.value.fileEntry == f)
      && SparedBy(list, old(list.rel.pages), old(list.chain))
  {
    hide Linked, ItemLayout, Represents, FilesOf, Located, Save.After, Saving, KeepsOthers, ItemCost;
    hide Save.Deleted, Save.Modified, Save.Acceptable, Relation.Valid, ById, Ids, Untouched, Spares;
    ghost var start, chain0 := list.rel.pages, list.chain;
    SparesNothing(start, list.headerBlockno, chain0, list.rel.snapshot, list.rel.horizon);
    IdsAreKnown(save, m);
    var modified := save.Modified();
    var todo := modified;
    cur := cur0;
    var marked := {};
    while todo != {}
      invariant todo <= modified && list.Valid()
      invariant Saving(list.rel.pages, list.chain, save, m, cur, found, todo)
      invariant forall f :: f in marked <==>
        exists id :: id in modified - todo && m[id].delete.Some? && m[id].delete.value.fileEntry == f
      invariant SparedBy(list, start, chain0)
      decreases |todo|
    {
      var id :| id in todo;
      SavingFacts(list.rel.pages, list.chain, save, m, cur, found, todo, id);
      var (entry, blockno) := found[id];
      ModifiedEntryIsAfter(save, m, id);
      var e := ModifiedEntry(entry, ById(save.newMeta, id), save.newFiles[id][Delete].0);
      if entry.delete.Some? {
        marked := marked + {entry.delete.value.fileEntry};
      }
      ghost var before, chain := list.rel.pages, list.chain;
      var didReplace := Overwrite(list, blockno, e, cur);
      if didReplace {
        UntouchedSpares(before, list.rel.pages, list.headerBlockno, chain, chain, list.rel.snapshot, list.rel.horizon);
      } else {
        var moved := Move(list, blockno, e, cur);
        if moved.Failure? {
          return moved.PropagateFailure(), cur;
        }
      }
      SparesTransitive(start, before, list.rel.pages, list.headerBlockno, chain0, chain, list.chain,
                       list.rel.snapshot, list.rel.horizon);
      SavingStep(before, chain, list.rel.pages, list.chain, save, m, cur, found, todo, id, e);
      cur := cur[id := e];
      todo := todo - {id};
    }
    return Success(marked), cur;
  }

  lemma ModifiedEntryIsAfter(save: Save, m: Entries, id: SegmentId)
    requires save.Acceptable(m) && id in save.Modified()
    ensures id in m && id in save.newFiles && Delete in save.newFiles[id] && id in Ids(save.newMeta)
    ensures save.After(m)[id] == ModifiedEntry(m[id], ById(save.newMeta, id), save.newFiles[id][Delete].0)
  {}

  /** The entries there were before, as they are after the save. */
  ghost function Remaining(save: Save, m: Entries): Entries
    requires save.Acceptable(m)
  {
    map id | id in m :: save.After(m)[id]
  }

  lemma RemainingIsKeyed(save: Save, m: Entries)
    requires save.Acceptable(m) && Keyed(m)
    ensures Keyed(Remaining(save, m))
  {
    hide CreatedEntry, ModifiedEntry;
    forall id | id in m ensures Remaining(save, m)[id].segmentId == id {
      if id in save.Modified() {
        assert ModifiedEntry(m[id], ById(save.newMeta, id), save.newFiles[id][Delete].0).segmentId == id;
      }
    }
  }

  lemma AfterFacts(save: Save, m: Entries)
    requires save.Acceptable(m)
    ensures save.After(m).Keys == m.Keys + save.Created() && save.Created() !! m.Keys
    ensures Remaining(save, m).Keys == m.Keys
    ensures forall id :: id in m ==> Remaining(save, m)[id] == save.After(m)[id]
  {}

  lemma CreatedEntryIsAfter(save: Save, m: Entries, id: SegmentId)
    requires save.Acceptable(m) && id in save.Created()
    ensures id !in m && id in save.newFiles && id in Ids(save.newMeta) && id in save.After(m)
    ensures save.After(m)[id] == CreatedEntry(ById(save.newMeta, id), save.newFiles[id], save.xid)
  {}

  /** The new segments in `todo` have no entry yet. */
  ghost predicate Creating(save: Save, m: Entries, cur: Entries, entries: Items, todo: set<SegmentId>)
    requires save.Acceptable(m)
  {
    && Keyed(cur) && todo <= save.Created() && cur.Keys == m.Keys + (save.Created() - todo)
    && (forall id :: id in cur ==> cur[id] == save.After(m)[id])
    && multiset(cur.Values) == multiset(Remaining(save, m).Values) + multiset(entries)
  }

  lemma CreatingStarts(save: Save, m: Entries)
    requires save.Acceptable(m) && Keyed(m)
    ensures Creating(save, m, Remaining(save, m), [], save.Created())
  {
    RemainingIsKeyed(save, m);
    AfterFacts(save, m);
  }

  lemma CreatingStep(save: Save, m: Entries, cur: Entries, entries: Items, todo: set<SegmentId>, id: SegmentId,
                     e: SegmentMetaEntry)
    requires save.Acceptable(m) && Creating(save, m, cur, entries, todo) && id in todo
    requires e.segmentId == id && id !in m && id in save.After(m) && save.After(m)[id] == e
    ensures Creating(save, m, cur[id := e], entries + [e], todo - {id})
  {
    hide Save.After, Save.Created, Save.Acceptable, Remaining;
    ValuesOfInsert(cur, e);
    assert multiset(entries + [e]) == multiset(entries) + multiset{e};
  }

  lemma CreatingDone(save: Save, m: Entries, cur: Entries, entries: Items)
    requires save.Acceptable(m) && Creating(save, m, cur, entries, {})
    ensures Keyed(save.After(m))
    ensures multiset(save.After(m).Values) == multiset(Remaining(save, m).Values) + multiset(entries)
  {
    AfterFacts(save, m);
    hide Save.After, Save.Created, Save.Acceptable, Remaining;
    assert cur == save.After(m);
  }

  /** The entries of all new segments that have files; together with what remains they are the map after. */
  method CreateEntries(save: Save, ghost m: Entries) returns (entries: Items)
    requires save.Acceptable(m) && Keyed(m)
    ensures Keyed(save.After(m))
    ensures multiset(save.After(m).Values) == multiset(Remaining(save, m).Values) + multiset(entries)
  {
    hide ById, Ids, Creating, Save.After, Save.Created, Save.Acceptable, Remaining;
    CreatingStarts(save, m);
    var todo := save.Created();
    entries := [];
    ghost var cur := Remaining(save, m);
    while todo != {}
      invariant todo <= save.Created() && Creating(save, m, cur, entries, todo)
      decreases |todo|
    {
      var id :| id in todo;
      CreatedEntryIsAfter(save, m, id);
      var e := CreatedEntry(ById(save.newMeta, id), save.newFiles[id], save.xid);
      CreatingStep(save, m, cur, entries, todo, id, e);
      cur := cur[id := e];
      entries := entries + [e];
      todo := todo - {id};
    }
    CreatingDone(save, m, cur, entries);
  }

  lemma AllSaved(contents: seq<Items>, after: seq<Items>, save: Save, m: Entries, cur: Entries, entries: Items,
                 from: nat)
    requires save.Acceptable(m) && Partly(save, m, cur, {}) && Represents(contents, cur)
    requires Keyed(save.After(m))
    requires multiset(save.After(m).Values) == multiset(Remaining(save, m).Values) + multiset(entries)
    requires Added(contents, after, entries, from)
    ensures Represents(after, save.After(m))
  {
    hide Save.After;
    assert cur == Remaining(save, m);
  }

  lemma SavingDone(pages: Pages, chain: seq<BlockNo>, save: Save, m: Entries, cur: Entries, found: Found)
    requires save.Acceptable(m) && Saving(pages, chain, save, m, cur, found, {})
    ensures Partly(save, m, cur, {}) && Represents(Contents(pages, chain), cur)
  {}

  /** What the code panics on, said of the drained files. */
  ghost predicate Demands(directory: Directory, newMeta: seq<SegmentMeta>, prevMeta: seq<SegmentMeta>, m: Entries) {
    && (forall id :: id in Ids(prevMeta) && id !in Ids(newMeta) ==> id in m)
    && (forall p :: p in directory ==>
          && p.id.Some? && p.component.Some?
          && (p.id.value in Ids(newMeta) ==>
                if p.id.value in Ids(prevMeta) then p.id.value in m && p.component.value == Delete
                else p.id.value !in m))
  }

  lemma NotEmpty(files: Files)
    ensures files != map[] ==> files.Keys != {}
  {}

  lemma DemandsAreMet(directory: Directory, save: Save, m: Entries)
    requires Organized(directory, save.newFiles) && Demands(directory, save.newMeta, save.prevMeta, m)
    ensures save.Acceptable(m)
  {
    hide Ids;
    forall id | id in save.newFiles
      ensures id in save.Modified() ==> id in m && save.newFiles[id].Keys == {Delete}
      ensures id in save.Created() ==> id !in m
    {
      forall c | c in save.newFiles[id]
        ensures save.newFiles[id][c].1 in directory && save.newFiles[id][c].1.id == Some(id)
        ensures save.newFiles[id][c].1.component == Some(c)
      {
        assert KeptFile(directory, id, c, save.newFiles[id][c]);
      }
      NotEmpty(save.newFiles[id]);
      var c :| c in save.newFiles[id].Keys;
      assert c in save.newFiles[id];
    }
  }

  /** The files a save lets go of: those of deleted segments, and replaced delete files. */
  ghost predicate Released(save: Save, m: Entries, f: FileEntry)
    requires save.Acceptable(m)
  {
    || (exists id :: id in save.Deleted() && HasFile(m[id], f))
    || (exists id :: id in save.Modified() && m[id].delete.Some? && m[id].delete.value.fileEntry == f)
  }

  function PathsOf(newFiles: NewFiles): (paths: set<Path>) {
    set id, c | id in newFiles && c in newFiles[id] :: newFiles[id][c].1
  }

  /** What is left over goes back into the directory, each file under its path. */
  function HandBack(newFiles: NewFiles): Directory {
    map p | p in PathsOf(newFiles) && Filed(newFiles, p) :: newFiles[p.id.value][p.component.value].0
  }

  lemma HandsBackAll(newFiles: NewFiles, directory: Directory)
    requires forall id, c :: id in newFiles && c in newFiles[id] ==> KeptFile(directory, id, c, newFiles[id][c])
    ensures HandedBack(newFiles, HandBack(newFiles))
  {
    var back := HandBack(newFiles);
    forall id, c | id in newFiles && c in newFiles[id]
      ensures newFiles[id][c].1 in back && back[newFiles[id][c].1] == newFiles[id][c].0
    {
      assert KeptFile(directory, id, c, newFiles[id][c]);
    }
    forall p | p in back
      ensures Filed(newFiles, p) && newFiles[p.id.value][p.component.value] == (back[p], p)
    {
      var id, c :| id in newFiles && c in newFiles[id] && newFiles[id][c].1 == p;
      assert KeptFile(directory, id, c, newFiles[id][c]);
    }
  }

  lemma LeftOverIsKept(directory: Directory, save: Save)
    requires Organized(directory, save.newFiles)
    ensures forall id, c :: id in save.LeftOver() && c in save.LeftOver()[id] ==>
      KeptFile(directory, id, c, save.LeftOver()[id][c])
  {
    hide Ids;
  }

  /** The map a save leaves: garbage is collected only when segments were deleted. */
  ghost function Saved(save: Save, m: Entries, env: Env): Entries
    requires save.Acceptable(m)
  {
    if save.Deleted() == {} then save.After(m) else Collected(save.After(m), env)
  }

  /** The files of the loaded segments are there, and nobody may reuse their pages yet. */
  ghost predicate HasFiles(prevMeta: seq<SegmentMeta>, m: Entries, files: FileMap) {
    forall id, f :: id in Ids(prevMeta) && id in m && HasFile(m[id], f) ==> f in files
  }

  lemma HasReleased(save: Save, m: Entries, files: FileMap)
    requires save.Acceptable(m) && HasFiles(save.prevMeta, m, files)
    ensures forall id :: id in save.Deleted() ==> FilesOf(m[id]) <= files.Keys
    ensures forall id :: id in save.Modified() && m[id].delete.Some? ==> m[id].delete.value.fileEntry in files
  {
    hide Ids, FilesOf;
    forall id, f | id in save.Deleted() && f in FilesOf(m[id]) ensures f in files {
      FilesOfIff(m[id], f);
    }
    forall id | id in save.Modified() && m[id].delete.Some? ensures m[id].delete.value.fileEntry in files {
      assert HasFile(m[id], m[id].delete.value.fileEntry);
    }
  }

  /**
   `save_new_metas`.  The list goes from `m` to the map the save describes; what the directory held for
   other segments is handed back; the pages of all files it lets go of, `marked`, are marked deleted, and
   no other page changes that is not the list's and cannot be recycled.
   */
  method SaveNewMetas(list: LinkedItemList, newMeta: seq<SegmentMeta>, prevMeta: seq<SegmentMeta>,
                      directoryEntries: Directory, xid: Xid, env: Env, ghost m: Entries, ghost files: FileMap)
    returns (r: Result<Directory>, ghost marked: set<FileEntry>, ghost save: Save)
    requires list.Valid() && Represents(Contents(list.rel.pages, list.chain), m)
    requires Demands(directoryEntries, newMeta, prevMeta, m)
    requires OnDisk(list.rel.pages, BackendOf(list), list.chain, files) && HasFiles(prevMeta, m, files)
    modifies list`chain, list.rel`pages, list.rel`nblocks, list.rel`freeSpaceMap
    ensures list.rel.Valid()
    ensures save == Save(newMeta, prevMeta, save.newFiles, xid) && save.Acceptable(m)
    ensures Organized(directoryEntries, save.newFiles)
    ensures r.Failure? ==> list.rel.Full()
    ensures r.Success? ==>
      && list.Valid() && Represents(Contents(list.rel.pages, list.chain), Saved(save, m, env))
      && HandedBack(save.LeftOver(), r.value)
      && (forall f :: f in marked <==> Released(save, m, f))
      && Releases(old(list.rel.pages), list.rel.pages, BackendOf(list), old(list.chain), list.chain,
                  AllBlocks(marked, files))
  {
    hide ItemLayout, Linked, Relation.Valid, Organized, Represents, FilesOf, Saving, Added, HandedBack;
    hide Save.Acceptable, Save.After, Save.Deleted, Save.Modified, Save.Created, Save.LeftOver, Ids, Partly;
    hide Located, AllLocated, HandBack, Spares, SafeTrace, Stayed, Bodies, Kept, Collected;
    hide OnDisk, Releases, AllBlocks, HasFiles, FilesOfAll;
    ghost var start, chain0, backend := list.rel.pages, list.chain, BackendOf(list);
    var newFiles := Organize(directoryEntries);
    var theSave := Save(newMeta, prevMeta, newFiles, xid);
    save := theSave;
    DemandsAreMet(directoryEntries, save, m);
    RepresentsIsKeyed(Contents(list.rel.pages, list.chain), m);
    var created := CreateEntries(theSave, m);
    IdsAreKnown(save, m);
    HasReleased(save, m, files);
    var found := FindAll(list, theSave.Deleted() + theSave.Modified(), m);
    LeftOverIsKept(directoryEntries, save);
    HandsBackAll(save.LeftOver(), directoryEntries);
    var back := HandBack(theSave.LeftOver());
    SavingStarts(list.rel.pages, list.chain, save, m, found);
    BackendIsValid(list);
    ghost var cur;
    marked, cur := DeleteEntries(list, theSave, found, m, files);
    ghost var ofDeleted := marked;
    ghost var p1 := list.rel.pages;
    var replaced;
    replaced, cur := ModifyEntries(list, theSave, found, m, cur);
    if replaced.Failure? {
      return Failure(replaced.error), marked, save;
    }
    ReleasesSpared(start, p1, list.rel.pages, backend, chain0, chain0, list.chain, AllBlocks(ofDeleted, files));
    Release(list, replaced.value, files, save, m, cur, found, {}, start, chain0, ofDeleted);
    marked := ofDeleted + replaced.value;
    AllReleased(save, m, ofDeleted, replaced.value);
    SavingDone(list.rel.pages, list.chain, save, m, cur, found);
    ghost var contents, p2, chain2 := Contents(list.rel.pages, list.chain), list.rel.pages, list.chain;
    var added, from := list.AddItems(created, None);
    if added.Failure? {
      return Failure(added.error), marked, save;
    }
    AllSaved(contents, Contents(list.rel.pages, list.chain), save, m, cur, created, from);
    ReleasesSpared(start, p2, list.rel.pages, backend, chain0, chain2, list.chain, AllBlocks(marked, files));
    if theSave.Deleted() != {} {
      ghost var pages, chain := list.rel.pages, list.chain;
      ghost var trace, stay := GarbageCollect(list, env);
      CollectRefines(pages, chain, list.rel.pages, list.chain, save.After(m), env);
      CollectSpares(list, pages, chain, env, stay);
      ReleasesSpared(start, pages, list.rel.pages, backend, chain0, chain, list.chain, AllBlocks(marked, files));
    }
    return Success(back), marked, save;
  }

  /** Garbage collection changes pages of the list only, and adds none to it. */
  lemma CollectSpares(list: LinkedItemList, pages: Pages, chain: seq<BlockNo>, env: Env, stay: seq<nat>)
    requires Stayed(pages, chain, env, |chain|, stay) && list.chain == Select(chain, stay)
    requires Bodies(pages, list.rel.pages, chain, env, list.rel.nextXid, |chain|)
    ensures SparedBy(list, pages, chain)
  {
    hide Kept, Emptied, Stays, Cleaned;
    forall b | b in list.chain ensures b in chain {
      var t :| 0 <= t < |stay| && Select(chain, stay)[t] == b;
    }
    UntouchedSpares(pages, list.rel.pages, list.headerBlockno, chain, list.chain, list.rel.snapshot, list.rel.horizon);
  }

  lemma RepresentsIsKeyed(contents: seq<Items>, m: Entries)
    requires Represents(contents, m)
    ensures Keyed(m)
  {}

  lemma AllReleased(save: Save, m: Entries, deleted: set<FileEntry>, replaced: set<FileEntry>)
    requires save.Acceptable(m)
    requires deleted == FilesOfAll(m, save.Deleted())
    requires forall f :: f in replaced <==>
      exists id :: id in save.Modified() && m[id].delete.Some? && m[id].delete.value.fileEntry == f
    ensures forall f :: f in deleted + replaced <==> Released(save, m, f)
  {
    hide Save.Deleted, Save.Modified, FilesOf, HasFile, FilesOfAll;
    IdsAreKnown(save, m);
    FilesOfAllIff(m, save.Deleted());
  }

  // ---------------------------------------------------------------------------------------------
  // What the others see of a save
  // ---------------------------------------------------------------------------------------------

  ghost function VisibleIn(m: Entries, view: View): set<SegmentId> {
    set id | id in m && m[id].Visible(view)
  }

  /**
   A save takes effect all at once.  Who sees its transaction sees the new segments and not the
   deleted ones; who does not sees the segments there were.  Collecting garbage shows to nobody.
   */
  lemma SaveIsAtomic(save: Save, m: Entries, env: Env, view: View)
    requires save.Acceptable(m) && save.xid != INVALID_XID
    requires forall id :: id in save.Deleted() ==> m[id].xmax == INVALID_XID
    requires env.Sound() && view.AtOrAbove(env.horizon)
    ensures VisibleIn(Saved(save, m, env), view) ==
            if view.Sees(save.xid) then VisibleIn(m, view) - save.Deleted() + save.Created()
            else VisibleIn(m, view)
  {
    hide CreatedEntry, ModifiedEntry, Ids, ById;
    AfterShows(save, m, view);
    CollectionShowsToNobody(save.After(m), env, view);
  }

  lemma AfterShows(save: Save, m: Entries, view: View)
    requires save.Acceptable(m) && save.xid != INVALID_XID
    requires forall id :: id in save.Deleted() ==> m[id].xmax == INVALID_XID
    ensures VisibleIn(save.After(m), view) ==
            if view.Sees(save.xid) then VisibleIn(m, view) - save.Deleted() + save.Created()
            else VisibleIn(m, view)
  {
    hide Ids, ById;
    forall id | id in save.After(m)
      ensures save.After(m)[id].Visible(view) <==>
              if id in save.Created() then view.Sees(save.xid)
              else m[id].Visible(view) && !(id in save.Deleted() && view.Sees(save.xid))
    {}
  }

  lemma CollectionShowsToNobody(m: Entries, env: Env, view: View)
    requires env.Sound() && view.AtOrAbove(env.horizon)
    ensures VisibleIn(Collected(m, env), view) == VisibleIn(m, view)
  {
    forall id | id in m
      ensures id in VisibleIn(Collected(m, env), view) <==> m[id].Visible(view)
    {
      if m[id].Recyclable(env.snapshot, env.horizon) {
        RecyclableIsInvisible(m[id], env.snapshot, env.horizon, view);
      } else {
        FreezeKeepsVisibility(m[id], env.freezeLimit, view);
      }
    }
  }

  // ---------------------------------------------------------------------------------------------
  // Loading
  // ---------------------------------------------------------------------------------------------

  datatype MvccSatisfies = VisibleToSnapshot | AnyNotRecyclable {
    predicate Wants(e: SegmentMetaEntry, view: View, horizon: Xid) {
      match this
      case VisibleToSnapshot => e.Visible(view)
      case AnyNotRecyclable => !e.Recyclable(view.snap, horizon)
    }
  }

  datatype InnerSegmentMeta = InnerSegmentMeta(segmentId: SegmentId, maxDoc: nat, numDeletedDocs: Option<nat>)

  function Inner(e: SegmentMetaEntry): InnerSegmentMeta {
    InnerSegmentMeta(e.segmentId, e.maxDoc,
                     if e.delete.Some? then Some(e.delete.value.numDeletedDocs) else None)
  }

  ghost function Loaded(items: Items, how: MvccSatisfies, view: View, horizon: Xid): seq<InnerSegmentMeta> {
    if items == [] then []
    else
      var e := items[|items| - 1];
      Loaded(items[..|items| - 1], how, view, horizon) + if how.Wants(e, view, horizon) then [Inner(e)] else []
  }

  lemma {:induction false} LoadedAppend(a: Items, b: Items, how: MvccSatisfies, view: View, horizon: Xid)
    ensures Loaded(a + b, how, view, horizon) == Loaded(a, how, view, horizon) + Loaded(b, how, view, horizon)
  {
    hide MvccSatisfies.Wants;
    if b == [] {
      assert a + b == a;
    } else {
      assert (a + b)[..|a + b| - 1] == a + b[..|b| - 1];
      LoadedAppend(a, b[..|b| - 1], how, view, horizon);
    }
  }

  /** The opstamp an entry pretends to have. */
  function Opstamp(e: SegmentMetaEntry): nat { e.xmax * 0x1_0000_0000 + e.xmin }

  /** The largest opstamp of an entry that is wanted, or 0. */
  ghost predicate Latest(entries: Items, how: MvccSatisfies, view: View, horizon: Xid, opstamp: nat) {
    && (forall e :: e in entries && how.Wants(e, view, horizon) ==> Opstamp(e) <= opstamp)
    && (opstamp == 0 || exists e :: e in entries && how.Wants(e, view, horizon) && Opstamp(e) == opstamp)
  }

  function OrZero(opstamp: Option<nat>): nat { if opstamp.Some? then opstamp.value else 0 }

  const SCHEMA_START: BlockNo := 2
  const SETTINGS_START: BlockNo := 4

  /** A list that was written, flushed or not. */
  ghost predicate Written(pages: Pages, header: BlockNo, chain: seq<BlockNo>, content: seq<BitPacking.Byte>) {
    && header in pages && pages[header].Page? && pages[header].list.Some?
    && LinkedBytes.Layout(pages, header, pages[header].list.value, chain, content)
  }

  /** `load_metas`; the schema and the settings are the bytes they were saved as. */
  method LoadMetas(list: LinkedItemList, how: MvccSatisfies, view: View, horizon: Xid,
                   ghost schemaChain: seq<BlockNo>, ghost schema: seq<BitPacking.Byte>,
                   ghost settingsChain: seq<BlockNo>, ghost settings: seq<BitPacking.Byte>)
    returns (alive: seq<InnerSegmentMeta>, schemaBytes: seq<BitPacking.Byte>,
             settingsBytes: seq<BitPacking.Byte>, opstamp: nat)
    requires list.Valid()
    requires Written(list.rel.pages, SCHEMA_START, schemaChain, schema)
    requires Written(list.rel.pages, SETTINGS_START, settingsChain, settings)
    ensures alive == Loaded(ItemsUpTo(list.rel.pages, list.chain, |list.chain|), how, view, horizon)
    ensures Latest(ItemsUpTo(list.rel.pages, list.chain, |list.chain|), how, view, horizon, opstamp)
    ensures schemaBytes == schema && settingsBytes == settings
  {
    hide ItemLayout, Relation.Valid, Linked, Loaded, Latest, MvccSatisfies.Wants, LinkedBytes.Layout;
    ghost var pages, chain := list.rel.pages, list.chain;
    StartOfChain(pages, list.headerBlockno, chain);
    NotInvalid(pages, list.headerBlockno, chain);
    alive := [];
    var latest: Option<nat> := None;
    var blockno := list.StartBlockno();
    ghost var c := 0;
    LoadedNothing(how, view, horizon);
    ghost var seen: Items := [];
    LatestOfNothing(how, view, horizon);
    while blockno != INVALID_BLOCK
      invariant c <= |chain| && blockno == (if c < |chain| then chain[c] else INVALID_BLOCK)
      invariant seen == ItemsUpTo(pages, chain, c) && alive == Loaded(seen, how, view, horizon)
      invariant Latest(seen, how, view, horizon, OrZero(latest))
      decreases |chain| - c
    {
      NextInChain(pages, list.headerBlockno, chain, c);
      var items := list.rel.pages[blockno].items;
      ghost var before := alive;
      assert seen + items[..0] == seen && Loaded(items[..0], how, view, horizon) == [] by {
        LoadedNothing(how, view, horizon);
      }
      for offset := 0 to |items|
        invariant alive == before + Loaded(items[..offset], how, view, horizon)
        invariant Latest(seen + items[..offset], how, view, horizon, OrZero(latest))
      {
        var e := items[offset];
        LatestMore(seen + items[..offset], e, how, view, horizon, OrZero(latest));
        assert seen + items[..offset + 1] == seen + items[..offset] + [e];
        if how.Wants(e, view, horizon) {
          alive := alive + [Inner(e)];
          latest := Some(if latest.Some? && Opstamp(e) < latest.value then latest.value else Opstamp(e));
        }
        LoadedOne(items, offset, how, view, horizon);
      }
      assert items[..|items|] == items;
      LoadedAppend(seen, items, how, view, horizon);
      seen := seen + items;
      blockno := list.rel.pages[blockno].next;
      c := c + 1;
    }
    var schemaList := LinkedBytes.LinkedBytesList.Open(list.rel, SCHEMA_START, schemaChain, [], schema);
    var settingsList := LinkedBytes.LinkedBytesList.Open(list.rel, SETTINGS_START, settingsChain, [], settings);
    schemaBytes := schemaList.ReadAll();
    settingsBytes := settingsList.ReadAll();
    opstamp := OrZero(latest);
  }

  lemma LatestOfNothing(how: MvccSatisfies, view: View, horizon: Xid)
    ensures Latest([], how, view, horizon, 0)
  {}

  lemma LatestMore(items: Items, e: SegmentMetaEntry, how: MvccSatisfies, view: View, horizon: Xid, opstamp: nat)
    requires Latest(items, how, view, horizon, opstamp)
    ensures !how.Wants(e, view, horizon) ==> Latest(items + [e], how, view, horizon, opstamp)
    ensures how.Wants(e, view, horizon) ==>
      Latest(items + [e], how, view, horizon, if Opstamp(e) < opstamp then opstamp else Opstamp(e))
  {
    hide MvccSatisfies.Wants, Opstamp;
    assert forall x :: x in items + [e] <==> x in items || x == e;
  }

  lemma LoadedNothing(how: MvccSatisfies, view: View, horizon: Xid)
    ensures Loaded([], how, view, horizon) == []
  {}

  lemma LoadedOne(items: Items, offset: nat, how: MvccSatisfies, view: View, horizon: Xid)
    requires offset < |items|
    ensures Loaded(items[..offset + 1], how, view, horizon) ==
            Loaded(items[..offset], how, view, horizon)
            + if how.Wants(items[offset], view, horizon) then [Inner(items[offset])] else []
  {
    assert items[..offset + 1][..offset] == items[..offset];
  }

  ghost function Wanted(m: Entries, how: MvccSatisfies, view: View, horizon: Xid): set<InnerSegmentMeta> {
    set id | id in m && how.Wants(m[id], view, horizon) :: Inner(m[id])
  }

  /** The segments loaded are exactly those wanted of the map, each once, as the map has them; the entries
      the opstamp is the largest of are the map's. */
  lemma LoadRefines(pages: Pages, chain: seq<BlockNo>, m: Entries, how: MvccSatisfies, view: View, horizon: Xid)
    requires Represents(Contents(pages, chain), m)
    ensures multiset(Loaded(ItemsUpTo(pages, chain, |chain|), how, view, horizon))
         == multiset(Wanted(m, how, view, horizon))
    ensures forall e :: e in ItemsUpTo(pages, chain, |chain|) <==> e in m.Values
  {
    ItemsAreAllItems(pages, chain, |chain|);
    assert Contents(pages, chain)[..|chain|] == Contents(pages, chain);
    SameElements(ItemsUpTo(pages, chain, |chain|), m.Values);
    LoadedOfMap(ItemsUpTo(pages, chain, |chain|), m, how, view, horizon);
  }

  /** What a mode loads, said of what views can see. */
  ghost predicate ToLoad(e: SegmentMetaEntry, how: MvccSatisfies, view: View, horizon: Xid) {
    match how
    case VisibleToSnapshot => e.Visible(view)
    case AnyNotRecyclable => SeenBySome(e, horizon) || StillOwn(e, horizon)
  }

  ghost predicate Describes(x: InnerSegmentMeta, e: SegmentMetaEntry) {
    && x.segmentId == e.segmentId && x.maxDoc == e.maxDoc
    && match e.delete
       case None => x.numDeletedDocs == None
       case Some(d) => x.numDeletedDocs == Some(d.numDeletedDocs)
  }

  ghost predicate IsLoaded(loaded: seq<InnerSegmentMeta>, id: SegmentId) {
    exists i :: 0 <= i < |loaded| && loaded[i].segmentId == id
  }

  /**
   Under a snapshot exactly the segments it sees are loaded; in the other mode exactly those that some view may
   come to see, or that one transaction has made and deleted and the horizon has not passed.  Each is loaded
   once, with the number of its documents and, if it has a delete file, of those that are deleted.
   */
  lemma LoadMeans(pages: Pages, chain: seq<BlockNo>, m: Entries, how: MvccSatisfies, view: View, horizon: Xid)
    requires Represents(Contents(pages, chain), m) && horizon <= view.snap.xmin
    ensures var loaded := Loaded(ItemsUpTo(pages, chain, |chain|), how, view, horizon);
            && (forall id :: IsLoaded(loaded, id) <==> id in m && ToLoad(m[id], how, view, horizon))
            && (how.VisibleToSnapshot? ==> forall id :: IsLoaded(loaded, id) <==> id in VisibleIn(m, view))
            && (forall i :: 0 <= i < |loaded| ==>
                  loaded[i].segmentId in m && Describes(loaded[i], m[loaded[i].segmentId]))
            && (forall i, j :: 0 <= i < j < |loaded| ==> loaded[i].segmentId != loaded[j].segmentId)
  {
    var loaded := Loaded(ItemsUpTo(pages, chain, |chain|), how, view, horizon);
    var wanted := Wanted(m, how, view, horizon);
    LoadRefines(pages, chain, m, how, view, horizon);
    RepresentsIsKeyed(Contents(pages, chain), m);
    hide Represents, Loaded, Contents, ItemsUpTo;
    forall id | id in m ensures how.Wants(m[id], view, horizon) <==> ToLoad(m[id], how, view, horizon) {
      WantsIff(m[id], how, view, horizon);
    }
    hide MvccSatisfies.Wants, ToLoad;
    OnceEach(loaded, wanted);
    forall x ensures x in wanted <==> x.segmentId in m && how.Wants(m[x.segmentId], view, horizon)
                                      && x == Inner(m[x.segmentId]) {}
    forall id ensures IsLoaded(loaded, id) <==> id in m && ToLoad(m[id], how, view, horizon) {
      if id in m && ToLoad(m[id], how, view, horizon) {
        assert Inner(m[id]) in wanted;
        var i :| 0 <= i < |loaded| && loaded[i] == Inner(m[id]);
      }
    }
    if how.VisibleToSnapshot? {
      forall id ensures id in VisibleIn(m, view) <==> id in m && ToLoad(m[id], how, view, horizon) {
        SnapshotMode(m, view, horizon, id);
      }
    }
  }

  lemma SnapshotMode(m: Entries, view: View, horizon: Xid, id: SegmentId)
    ensures id in VisibleIn(m, view) <==> id in m && ToLoad(m[id], VisibleToSnapshot, view, horizon)
  {}

  lemma WantsIff(e: SegmentMetaEntry, how: MvccSatisfies, view: View, horizon: Xid)
    requires horizon <= view.snap.xmin
    ensures how.Wants(e, view, horizon) <==> ToLoad(e, how, view, horizon)
  {
    hide SeenBySome, StillOwn;
    RecyclableIff(e, view.snap, horizon);
  }

  lemma OnceEach(loaded: seq<InnerSegmentMeta>, wanted: set<InnerSegmentMeta>)
    requires multiset(loaded) == multiset(wanted)
    ensures forall x :: x in loaded <==> x in wanted
    ensures forall i, j :: 0 <= i < j < |loaded| ==> loaded[i] != loaded[j]
  {
    forall x ensures x in loaded <==> x in wanted {
      assert x in loaded <==> x in multiset(loaded);
      assert x in wanted <==> x in multiset(wanted);
    }
    forall i, j | 0 <= i < j < |loaded| ensures loaded[i] != loaded[j] {
      CountedTwice(loaded, i, j);
      assert multiset(wanted)[loaded[i]] <= 1;
    }
  }

  lemma CountedTwice(loaded: seq<InnerSegmentMeta>, i: nat, j: nat)
    requires i < j < |loaded|
    ensures loaded[i] == loaded[j] ==> multiset(loaded)[loaded[i]] >= 2
  {
    assert loaded == loaded[..i] + [loaded[i]] + loaded[i + 1..j] + [loaded[j]] + loaded[j + 1..];
  }

  /** The opstamp is the largest of the loaded segments' entries, xmax before xmin, or 0 if nothing is loaded. */
  lemma OpstampMeans(items: Items, how: MvccSatisfies, view: View, horizon: Xid, opstamp: nat)
    requires Latest(items, how, view, horizon, opstamp) && horizon <= view.snap.xmin
    requires forall e :: e in items ==> e.xmin < 0x1_0000_0000
    ensures forall e :: e in items && ToLoad(e, how, view, horizon) ==>
      e.xmax < opstamp / 0x1_0000_0000
      || (e.xmax == opstamp / 0x1_0000_0000 && e.xmin <= opstamp % 0x1_0000_0000)
    ensures opstamp == 0 || (exists e :: e in items && ToLoad(e, how, view, horizon)
                                         && e.xmax == opstamp / 0x1_0000_0000 && e.xmin == opstamp % 0x1_0000_0000)
  {
    hide MvccSatisfies.Wants, ToLoad;
    forall e | e in items ensures how.Wants(e, view, horizon) <==> ToLoad(e, how, view, horizon) {
      WantsIff(e, how, view, horizon);
    }
  }

  lemma SameElements(items: Items, entries: set<SegmentMetaEntry>)
    requires multiset(items) == multiset(entries)
    ensures forall e :: e in items <==> e in entries
  {
    forall e ensures e in items <==> e in entries {
      assert e in items <==> e in multiset(items);
      assert e in entries <==> e in multiset(entries);
    }
  }

  lemma {:induction false} LoadedOfMap(items: Items, m: Entries, how: MvccSatisfies, view: View, horizon: Xid)
    requires Keyed(m) && multiset(items) == multiset(m.Values)
    ensures multiset(Loaded(items, how, view, horizon)) == multiset(Wanted(m, how, view, horizon))
  {
    hide MvccSatisfies.Wants;
    if items == [] {
      NoValuesNoKeys(m);
      assert Wanted(m, how, view, horizon) == {};
    } else {
      var front, e := items[..|items| - 1], items[|items| - 1];
      assert items == front + [e];
      assert e in multiset(items);
      assert e in m.Values;
      var rest := m - {e.segmentId};
      ValuesOfRemove(m, e.segmentId);
      LoadedOfMap(front, rest, how, view, horizon);
      WantedWithout(m, e.segmentId, how, view, horizon);
    }
  }

  lemma WantedWithout(m: Entries, id: SegmentId, how: MvccSatisfies, view: View, horizon: Xid)
    requires Keyed(m) && id in m
    ensures var rest := Wanted(m - {id}, how, view, horizon);
            && Inner(m[id]) !in rest
            && Wanted(m, how, view, horizon) == if how.Wants(m[id], view, horizon) then rest + {Inner(m[id])} else rest
  {
    hide MvccSatisfies.Wants;
    var all, rest := Wanted(m, how, view, horizon), Wanted(m - {id}, how, view, horizon);
    forall x | x in all ensures x in rest || (x == Inner(m[id]) && how.Wants(m[id], view, horizon)) {
      var id' :| id' in m && how.Wants(m[id'], view, horizon) && x == Inner(m[id']);
      if id' != id {
        assert (m - {id})[id'] == m[id'];
      }
    }
    forall x | x in rest ensures x in all && x != Inner(m[id]) {
      var id' :| id' in m - {id} && how.Wants(m[id'], view, horizon) && x == Inner(m[id']);
      assert x == Inner(m[id']) && x.segmentId == id';
    }
  }
}
