/**
 Runs of writers, readers, bulk deletes and vacuums over the blocks of segment files: when no block that
 someone may still read goes back to the free space map, nor is handed out again.
 */
module VacuumSafety {
  import opened Wrappers
  import opened Block
  import opened Storage
  import opened Transactions

  /** A transaction, or the vacuum process, which has no transaction id until it needs one. */
  datatype Actor = Txn(x: Xid) | Vacuum

  /** Whose a block is: a file being written, a file of an entry, or a file let go of by its entry.  `New`: no
      page has been made of it yet. */
  datatype Owner = New | Writer(p: Actor) | File(id: SegmentId, c: Component) | NoOne

  datatype Use = Use(xmax: Xid, owner: Owner)

  type Blocks = map<BlockNo, Use>

  /** An entry, with all blocks of each of its files: header, data and block list. */
  datatype Entry = Entry(xmin: Xid, xmax: Xid, files: map<Component, set<BlockNo>>) {
    predicate Visible(view: View) { view.Shows(xmin, xmax) }
  }

  type Directory = map<SegmentId, Entry>

  /** The segments a reader loaded, and the blocks of the files it opened. */
  datatype Reader = Reader(loaded: set<SegmentId>, handles: set<BlockNo>)

  /** A bulk delete: it loads the entries that are not recyclable at `horizon`, deleted ones included. */
  datatype Bulk = Bulk(x: Option<Xid>, horizon: Xid)

  datatype State = State(
    clock: Clock,
    entries: Directory,
    blocks: Blocks,
    freeSpaceMap: set<BlockNo>,
    growing: map<BlockNo, Actor>,       // new blocks, each with who has added it and will lock it next
    toMark: set<(Actor, BlockNo)>,      // pages still to be marked deleted, and by whom
    bulk: Option<Bulk>,
    freed: Xid,                         // bounds what was ever put into the free space map
    readers: map<nat, Reader>)

  const INIT := State(START, map[], map[], {}, map[], {}, None, INVALID_XID, map[])

  datatype Action =
    | Assign(views: set<nat>)
    | TakeSnapshot(v: nat, xmin: Xid, current: Option<Xid>)
    | ReleaseSnapshot(v: nat)
    | Finish(x: Xid)
    | Extend(p: Actor, b: BlockNo)                           // the relation grows by a block, for a file
    | InitNew(p: Actor, b: BlockNo)                          // who has added it locks it and makes it a page
    | TakeFree(p: Actor, b: BlockNo, horizon: Xid)           // a block off the free space map
    | CreateEntry(x: Xid, id: SegmentId, files: map<Component, set<BlockNo>>)
    | BeginBulk(horizon: Xid)
    | GetBulkId(x: Xid)
    | EndBulk
    | AbortBulk
    | DropEntry(p: Actor, x: Xid, id: SegmentId)
    | ReplaceDelete(id: SegmentId, file: set<BlockNo>)
    | MarkBlock(p: Actor, b: BlockNo)                        // one page of a list marked deleted
    | CollectEntry(id: SegmentId, horizon: Xid)
    | VacuumBlock(b: BlockNo, horizon: Xid)
    | VacuumNew(b: BlockNo)
    | Load(v: nat)
    | Open(v: nat, id: SegmentId, c: Component)

  predicate RecyclableBlock(u: Use, horizon: Xid) {
    u.xmax != INVALID_XID && u.xmax < horizon
  }

  /** To be found free: no page yet, or one marked deleted long ago. */
  predicate Takeable(u: Use, horizon: Xid) {
    u.owner.New? || RecyclableBlock(u, horizon)
  }

  ghost predicate IsOwn(s: State, p: Actor, bs: set<BlockNo>) {
    forall b :: b in bs ==> b in s.blocks && s.blocks[b].owner == Writer(p)
  }

  ghost predicate Runs(s: State, p: Actor) {
    if p.Txn? then p.x in s.clock.active else s.bulk.Some?
  }

  /** Entries that a bulk delete has loaded: not deleted, or not so long ago. */
  predicate BulkLoads(s: State, id: SegmentId) {
    s.bulk.Some? && id in s.entries
    && (s.entries[id].xmax == INVALID_XID || s.bulk.value.horizon <= s.entries[id].xmax)
  }

  /** Entries that a writer of the transaction has loaded under one of its snapshots. */
  ghost predicate WriterLoads(s: State, x: Xid, id: SegmentId) {
    exists v :: v in s.clock.live && s.clock.live[v].current == Some(x) && v in s.readers && id in s.readers[v].loaded
  }

  ghost predicate Enabled(s: State, a: Action) {
    match a
    case Assign(views) => s.clock.CanAssign(views)
    case TakeSnapshot(v, xmin, current) => s.clock.CanTakeSnapshot(v, xmin, current)
    case ReleaseSnapshot(v) => v in s.clock.live
    case Finish(x) => x in s.clock.active
    case Extend(p, b) => Runs(s, p) && b !in s.blocks
    case InitNew(p, b) => b in s.growing && s.growing[b] == p
    case TakeFree(p, b, horizon) => Runs(s, p) && b in s.freeSpaceMap && s.clock.MayRemoveBelow(horizon)
    case CreateEntry(x, id, files) =>
      && x in s.clock.active && id !in s.entries
      && (forall c :: c in files ==> IsOwn(s, Txn(x), files[c]))
      && (forall c, c' :: c in files && c' in files && c != c' ==> files[c] !! files[c'])
    // one vacuum of an index at a time; its horizon is no older than those of the vacuums before it
    case BeginBulk(horizon) => s.bulk == None && s.clock.MayRemoveBelow(horizon) && s.freed <= horizon
    case GetBulkId(x) => s.bulk.Some? && s.bulk.value.x == None && x in s.clock.active
    case EndBulk =>
      && s.bulk.Some? && (forall b :: (Vacuum, b) !in s.toMark)
      && (forall b :: b in s.growing ==> s.growing[b] != Vacuum)
    case AbortBulk => s.bulk.Some? && s.bulk.value.x == None
    // a merge or a bulk delete, of any entry it has loaded
    case DropEntry(p, x, id) =>
      && x in s.clock.active && id in s.entries
      && (if p.Txn? then p.x == x && (s.entries[id].xmax == INVALID_XID || WriterLoads(s, x, id))
          else BulkLoads(s, id) && s.bulk.value.x == Some(x))
    case ReplaceDelete(id, file) => BulkLoads(s, id) && IsOwn(s, Vacuum, file)
    case MarkBlock(p, b) => (p, b) in s.toMark && b in s.blocks
    case CollectEntry(id, horizon) =>
      && s.clock.MayRemoveBelow(horizon) && id in s.entries
      && s.entries[id].xmax != INVALID_XID && s.entries[id].xmax < horizon
    // by the vacuum process, which is not in the middle of a bulk delete then
    case VacuumBlock(b, horizon) =>
      s.bulk == None && s.clock.MayRemoveBelow(horizon) && b in s.blocks && RecyclableBlock(s.blocks[b], horizon)
    case VacuumNew(b) => s.bulk == None && b in s.blocks && s.blocks[b].owner.New?
    case Load(v) => v in s.clock.live
    case Open(v, id, c) =>
      && v in s.readers && id in s.readers[v].loaded
      && id in s.entries && c in s.entries[id].files
  }

  /** The blocks of all files of an entry. */
  ghost function BlocksOf(files: map<Component, set<BlockNo>>): set<BlockNo> {
    set c, b | c in files && b in files[c] :: b
  }

  ghost function DeleteFile(e: Entry): set<BlockNo> {
    if Delete in e.files then e.files[Delete] else {}
  }

  ghost function LetGo(blocks: Blocks, bs: set<BlockNo>): Blocks {
    map b | b in blocks :: if b in bs then blocks[b].(owner := NoOne) else blocks[b]
  }

  ghost function Marking(toMark: set<(Actor, BlockNo)>, p: Actor, bs: set<BlockNo>): set<(Actor, BlockNo)> {
    toMark + set b | b in bs :: (p, b)
  }

  ghost function NotBy(toMark: set<(Actor, BlockNo)>, p: Actor): set<(Actor, BlockNo)> {
    set m | m in toMark && m.0 != p
  }

  ghost function NotGrownBy(growing: map<BlockNo, Actor>, p: Actor): map<BlockNo, Actor> {
    map b | b in growing && growing[b] != p :: growing[b]
  }

  ghost function StillReading(s: State, live: map<nat, View>): map<nat, Reader> {
    map v | v in s.readers && v in live :: s.readers[v]
  }

  /** The files of a new entry, or its new delete file, become its own. */
  ghost function Created(blocks: Blocks, id: SegmentId, files: map<Component, set<BlockNo>>): Blocks {
    map b | b in blocks :: if c :| c in files && b in files[c] then blocks[b].(owner := File(id, c)) else blocks[b]
  }

  ghost function Replaced(blocks: Blocks, id: SegmentId, file: set<BlockNo>, gone: set<BlockNo>): Blocks {
    map b | b in blocks ::
      if b in file then blocks[b].(owner := File(id, Delete))
      else if b in gone then blocks[b].(owner := NoOne) else blocks[b]
  }

  ghost function Apply(s: State, a: Action): State
    requires Enabled(s, a)
  {
    match a
    case Assign(views) => s.(clock := s.clock.Assign(views))
    case TakeSnapshot(v, xmin, current) => s.(clock := s.clock.TakeSnapshot(v, xmin, current))
    case ReleaseSnapshot(v) =>
      s.(clock := s.clock.Release(v), readers := StillReading(s, s.clock.Release(v).live))
    case Finish(x) =>
      var vacuum := s.bulk.Some? && s.bulk.value.x == Some(x);
      s.(clock := s.clock.Finish(x), readers := StillReading(s, s.clock.Finish(x).live),
         toMark := if vacuum then NotBy(NotBy(s.toMark, Txn(x)), Vacuum) else NotBy(s.toMark, Txn(x)),
         growing := if vacuum then NotGrownBy(NotGrownBy(s.growing, Txn(x)), Vacuum) else NotGrownBy(s.growing, Txn(x)),
         bulk := if vacuum then None else s.bulk)
    case Extend(p, b) => s.(blocks := s.blocks[b := Use(INVALID_XID, New)], growing := s.growing[b := p])
    // whatever it is by then
    case InitNew(p, b) => s.(blocks := s.blocks[b := Use(INVALID_XID, Writer(p))], growing := s.growing - {b})
    case TakeFree(p, b, horizon) =>
      var t := s.(freeSpaceMap := s.freeSpaceMap - {b}, clock := s.clock.RemoveBelow(horizon));
      if b in s.blocks && Takeable(s.blocks[b], horizon)
      then t.(blocks := s.blocks[b := Use(INVALID_XID, Writer(p))])
      else t
    case CreateEntry(x, id, files) =>
      s.(entries := s.entries[id := Entry(x, INVALID_XID, files)], blocks := Created(s.blocks, id, files))
    case BeginBulk(horizon) => s.(bulk := Some(Bulk(None, horizon)))
    case GetBulkId(x) => s.(bulk := Some(Bulk(Some(x), s.bulk.value.horizon)))
    case EndBulk => s.(bulk := None)
    case AbortBulk => s.(bulk := None, toMark := NotBy(s.toMark, Vacuum), growing := NotGrownBy(s.growing, Vacuum))
    case DropEntry(p, x, id) =>
      var bs := BlocksOf(s.entries[id].files);
      s.(entries := s.entries[id := s.entries[id].(xmax := x)],
         blocks := LetGo(s.blocks, bs), toMark := Marking(s.toMark, p, bs))
    case ReplaceDelete(id, file) =>
      var e := s.entries[id];
      s.(entries := s.entries[id := e.(files := e.files[Delete := file])],
         blocks := Replaced(s.blocks, id, file, DeleteFile(e)), toMark := Marking(s.toMark, Vacuum, DeleteFile(e)))
    case MarkBlock(p, b) =>
      s.(blocks := s.blocks[b := s.blocks[b].(xmax := s.clock.nextXid)], toMark := s.toMark - {(p, b)})
    case CollectEntry(id, horizon) => s.(entries := s.entries - {id}, clock := s.clock.RemoveBelow(horizon))
    case VacuumBlock(b, horizon) =>
      s.(freeSpaceMap := s.freeSpaceMap + {b}, clock := s.clock.RemoveBelow(horizon),
         freed := if s.freed < horizon then horizon else s.freed)
    case VacuumNew(b) => s.(freeSpaceMap := s.freeSpaceMap + {b})
    case Load(v) =>
      var visible := set id | id in s.entries && s.entries[id].Visible(s.clock.live[v]);
      s.(readers := s.readers[v := Reader(visible, if v in s.readers then s.readers[v].handles else {})])
    case Open(v, id, c) =>
      s.(readers := s.readers[v := s.readers[v].(handles := s.readers[v].handles + s.entries[id].files[c])])
  }

  ghost function Run(actions: seq<Action>): Option<State> {
    if actions == [] then Some(INIT)
    else
      var before := Run(actions[..|actions| - 1]);
      var a := actions[|actions| - 1];
      if before.Some? && Enabled(before.value, a) then Some(Apply(before.value, a)) else None
  }

  /** An entry is dropped while no page of its files carries a mark older than the transaction that drops it;
      vacuum records no new block that whoever added it has not locked yet. */
  ghost predicate SafeStep(s: State, a: Action) {
    && (a.DropEntry? && a.id in s.entries ==>
          forall b :: b in BlocksOf(s.entries[a.id].files) && b in s.blocks ==>
            s.blocks[b].xmax == INVALID_XID || a.x <= s.blocks[b].xmax)
    && (a.VacuumNew? ==> a.b !in s.growing)
  }

  ghost predicate AllSafe(actions: seq<Action>) {
    actions != [] ==>
      var before := Run(actions[..|actions| - 1]);
      AllSafe(actions[..|actions| - 1]) && (before.Some? ==> SafeStep(before.value, actions[|actions| - 1]))
  }

  // ---------------------------------------------------------------------------------------------
  // What every step keeps
  // ---------------------------------------------------------------------------------------------

  ghost predicate Inv(s: State) {
    && s.clock.Valid() && s.freed <= s.clock.oldest && (s.bulk.Some? ==> s.freed <= s.bulk.value.horizon)
    && BulkRuns(s.bulk, s.clock.active)
    && Files(s.entries, s.blocks, s.freed) && Stamps(s.entries, s.clock.nextXid)
    && Uses(s.blocks) && Free(s.freeSpaceMap, s.blocks, s.growing, s.freed)
    && Growing(s.growing, s.blocks, s.clock.active, s.bulk.Some?)
    && Pending(s.toMark, s.blocks, s.freeSpaceMap, s.clock.active, s.bulk.Some?)
    && Reading(s.readers, s.clock.live, s.entries, s.blocks)
  }

  ghost predicate BulkRuns(bulk: Option<Bulk>, active: set<Xid>) {
    bulk.Some? && bulk.value.x.Some? ==> bulk.value.x.value in active
  }

  /** An entry in use has its blocks to itself.  Those of a deleted one are marked no earlier than it was
      deleted, or not at all, while vacuum has not passed it. */
  ghost predicate Files(entries: Directory, blocks: Blocks, freed: Xid) {
    forall id, c :: id in entries && c in entries[id].files ==>
      forall b :: b in entries[id].files[c] ==> b in blocks && FileBlock(entries[id], id, c, blocks[b], freed)
  }

  ghost predicate FileBlock(e: Entry, id: SegmentId, c: Component, u: Use, freed: Xid) {
    if e.xmax == INVALID_XID then u == Use(INVALID_XID, File(id, c))
    else
      || e.xmax < freed
      || ((u.owner == NoOne || u.owner == File(id, c))
          && (u.xmax == INVALID_XID || (e.xmax <= u.xmax && e.xmin < u.xmax)))
  }

  ghost predicate Stamps(entries: Directory, nextXid: Xid) {
    forall id :: id in entries ==>
      entries[id].xmin < nextXid
      && (entries[id].xmax == INVALID_XID || FIRST_NORMAL_XID <= entries[id].xmax < nextXid)
  }

  ghost predicate Uses(blocks: Blocks) {
    forall b :: b in blocks && blocks[b].xmax != INVALID_XID ==> blocks[b].owner == NoOne
  }

  ghost predicate Free(freeSpaceMap: set<BlockNo>, blocks: Blocks, growing: map<BlockNo, Actor>, freed: Xid) {
    forall b :: b in freeSpaceMap ==> b in blocks && b !in growing && Takeable(blocks[b], freed)
  }

  /** New blocks are nobody else's until they are locked. */
  ghost predicate Growing(growing: map<BlockNo, Actor>, blocks: Blocks, active: set<Xid>, bulk: bool) {
    forall b :: b in growing ==>
      && b in blocks && blocks[b] == Use(INVALID_XID, New)
      && if growing[b].Txn? then growing[b].x in active else bulk
  }

  /** Pages still to be marked are nobody's, and not recyclable unless vacuum is on them itself. */
  ghost predicate Pending(toMark: set<(Actor, BlockNo)>, blocks: Blocks, freeSpaceMap: set<BlockNo>,
                          active: set<Xid>, bulk: bool)
  {
    forall p, b :: (p, b) in toMark ==>
      && b in blocks && blocks[b].owner == NoOne && b !in freeSpaceMap
      && (if p.Txn? then p.x in active && (blocks[b].xmax == INVALID_XID || p.x <= blocks[b].xmax) else bulk)
  }

  ghost predicate Reading(readers: map<nat, Reader>, live: map<nat, View>, entries: Directory, blocks: Blocks) {
    forall v :: v in readers ==>
      && v in live
      && (forall id :: id in readers[v].loaded ==>
            id in entries && (entries[id].xmax == INVALID_XID || live[v].snap.xmin <= entries[id].xmax))
      && (forall b :: b in readers[v].handles ==> b in blocks && Held(blocks[b], live[v].snap.xmin))
  }

  /** A file's, or let go of, and if marked deleted then not before the snapshot's oldest transaction. */
  ghost predicate Held(u: Use, xmin: Xid) {
    (u.owner.File? || u.owner.NoOne?) && (u.xmax == INVALID_XID || xmin <= u.xmax)
  }

  lemma {:induction false} InvHolds(actions: seq<Action>)
    requires Run(actions).Some? && AllSafe(actions)
    ensures Inv(Run(actions).value)
  {
    hide Inv, Enabled, Apply, SafeStep;
    if actions == [] {
      InitHolds();
    } else {
      InvHolds(actions[..|actions| - 1]);
      StepKeeps(Run(actions[..|actions| - 1]).value, actions[|actions| - 1]);
    }
  }

  lemma InitHolds()
    ensures Inv(INIT)
  {}

  lemma StepKeeps(s: State, a: Action)
    requires Inv(s) && Enabled(s, a) && SafeStep(s, a)
    ensures Inv(Apply(s, a))
  {
    hide Inv, Enabled, Apply, SafeStep;
    match a
    case Assign(views) => ClockStepKeeps(s, a);
    case TakeSnapshot(v, xmin, current) => ClockStepKeeps(s, a);
    case ReleaseSnapshot(v) => ClockStepKeeps(s, a);
    case Finish(x) => FinishKeeps(s, a);
    case Extend(p, b) => ExtendKeeps(s, a);
    case InitNew(p, b) => InitKeeps(s, a);
    case TakeFree(p, b, horizon) => TakeFreeKeeps(s, a);
    case CreateEntry(x, id, files) => CreateKeeps(s, a);
    case BeginBulk(horizon) => BulkStepKeeps(s, a);
    case GetBulkId(x) => BulkStepKeeps(s, a);
    case EndBulk => BulkStepKeeps(s, a);
    case AbortBulk => BulkStepKeeps(s, a);
    case DropEntry(p, x, id) => DropKeeps(s, a);
    case ReplaceDelete(id, file) => ReplaceKeeps(s, a);
    case MarkBlock(p, b) => MarkKeeps(s, a);
    case CollectEntry(id, horizon) => CollectKeeps(s, a);
    case VacuumBlock(b, horizon) => VacuumKeeps(s, a);
    case VacuumNew(b) => VacuumNewKeeps(s, a);
    case Load(v) => LoadKeeps(s, a);
    case Open(v, id, c) => OpenKeeps(s, a);
  }

  lemma ClockStepKeeps(s: State, a: Action)
    requires a.Assign? || a.TakeSnapshot? || a.ReleaseSnapshot?
    requires Inv(s) && Enabled(s, a)
    ensures Inv(Apply(s, a))
  {
    hide Files, Uses, Free, Reading, Clock.Valid;
    var c, t := s.clock, Apply(s, a);
    match a {
      case Assign(views) => AssignKeepsClock(c, views);
      case TakeSnapshot(v, xmin, current) => TakeSnapshotKeepsClock(c, v, xmin, current);
      case ReleaseSnapshot(v) => ReleaseKeepsClock(c, v);
    }
    ReadingIsLive(s.readers, c.live, s.entries, s.blocks);
    ReadingKept(s.readers, c.live, t.readers, t.clock.live, s.entries, s.blocks);
  }

  lemma FinishKeeps(s: State, a: Action)
    requires a.Finish? && Inv(s) && Enabled(s, a)
    ensures Inv(Apply(s, a))
  {
    hide Files, Uses, Reading, Stamps, Clock.Valid;
    var t := Apply(s, a);
    FinishKeepsClock(s.clock, a.x);
    ReadingIsLive(s.readers, s.clock.live, s.entries, s.blocks);
    ReadingKept(s.readers, s.clock.live, t.readers, t.clock.live, s.entries, s.blocks);
  }

  lemma ReadingIsLive(readers: map<nat, Reader>, live: map<nat, View>, entries: Directory, blocks: Blocks)
    requires Reading(readers, live, entries, blocks)
    ensures readers.Keys <= live.Keys
  {}

  lemma ReadingKept(readers: map<nat, Reader>, live: map<nat, View>, readers': map<nat, Reader>,
                    live': map<nat, View>, entries: Directory, blocks: Blocks)
    requires Reading(readers, live, entries, blocks)
    requires forall v :: v in readers' ==>
      v in readers && readers'[v] == readers[v] && v in live && v in live' && live'[v].snap == live[v].snap
    ensures Reading(readers', live', entries, blocks)
  {
    hide Held;
  }

  lemma BulkStepKeeps(s: State, a: Action)
    requires a.BeginBulk? || a.GetBulkId? || a.EndBulk? || a.AbortBulk?
    requires Inv(s) && Enabled(s, a)
    ensures Inv(Apply(s, a))
  {
    hide Files, Uses, Reading, Clock.Valid, Stamps;
  }

  lemma ExtendKeeps(s: State, a: Action)
    requires a.Extend? && Inv(s) && Enabled(s, a)
    ensures Inv(Apply(s, a))
  {
    hide Clock.Valid, Stamps, FileBlock, Held;
  }

  lemma InitKeeps(s: State, a: Action)
    requires a.InitNew? && Inv(s) && Enabled(s, a)
    ensures Inv(Apply(s, a))
  {
    hide Clock.Valid, Stamps;
  }

  lemma VacuumNewKeeps(s: State, a: Action)
    requires a.VacuumNew? && Inv(s) && Enabled(s, a) && SafeStep(s, a)
    ensures Inv(Apply(s, a))
  {
    hide Clock.Valid, Files, Stamps, Held, Reading;
  }

  lemma TakeFreeKeeps(s: State, a: Action)
    requires a.TakeFree? && Inv(s) && Enabled(s, a)
    ensures Inv(Apply(s, a))
  {
    hide Clock.Valid, Files, Uses, Free, Reading, Stamps, Pending;
    var u := Use(INVALID_XID, Writer(a.p));
    RemoveBelowKeepsClock(s.clock, a.horizon);
    FreeLess(s.freeSpaceMap, s.blocks, s.growing, s.freed, a.b, u);
    PendingLess(s, a.b, u);
    if a.b in s.blocks && Takeable(s.blocks[a.b], a.horizon) {
      FreeIsTakeable(s.freeSpaceMap, s.blocks, s.growing, s.freed, a.b);
      ReuseKeepsFiles(s.entries, s.blocks, s.freed, a.b, u);
      LiveIsNotOlder(s.clock);
      ReuseKeepsReading(s.readers, s.clock.live, s.entries, s.blocks, s.freed, a.b, u);
    }
  }

  lemma FreeIsTakeable(freeSpaceMap: set<BlockNo>, blocks: Blocks, growing: map<BlockNo, Actor>, freed: Xid,
                       b: BlockNo)
    requires Free(freeSpaceMap, blocks, growing, freed) && b in freeSpaceMap
    ensures b in blocks && Takeable(blocks[b], freed) && b !in growing
  {}

  lemma PendingLess(s: State, b: BlockNo, u: Use)
    requires Inv(s) && b in s.freeSpaceMap
    ensures Pending(s.toMark, s.blocks, s.freeSpaceMap - {b}, s.clock.active, s.bulk.Some?)
    ensures Pending(s.toMark, s.blocks[b := u], s.freeSpaceMap - {b}, s.clock.active, s.bulk.Some?)
  {
    hide Files, Uses, Free, Reading, Clock.Valid, Stamps;
  }

  lemma LiveIsNotOlder(c: Clock)
    requires c.Valid()
    ensures forall v :: v in c.live ==> c.oldest <= c.live[v].snap.xmin
  {}

  lemma FreeLess(freeSpaceMap: set<BlockNo>, blocks: Blocks, growing: map<BlockNo, Actor>, freed: Xid, b: BlockNo,
                 u: Use)
    requires Free(freeSpaceMap, blocks, growing, freed)
    ensures Free(freeSpaceMap - {b}, blocks, growing, freed)
    ensures Free(freeSpaceMap - {b}, blocks[b := u], growing, freed)
  {}

  lemma ReuseKeepsFiles(entries: Directory, blocks: Blocks, freed: Xid, b: BlockNo, u: Use)
    requires Files(entries, blocks, freed) && Uses(blocks) && b in blocks && Takeable(blocks[b], freed)
    requires u.xmax == INVALID_XID
    ensures Files(entries, blocks[b := u], freed) && Uses(blocks[b := u])
  {}

  lemma ReuseKeepsReading(readers: map<nat, Reader>, live: map<nat, View>, entries: Directory, blocks: Blocks,
                          freed: Xid, b: BlockNo, u: Use)
    requires Reading(readers, live, entries, blocks) && b in blocks && Takeable(blocks[b], freed)
    requires forall v :: v in live ==> freed <= live[v].snap.xmin
    ensures Reading(readers, live, entries, blocks[b := u])
  {}

  lemma CreateKeeps(s: State, a: Action)
    requires a.CreateEntry? && Inv(s) && Enabled(s, a)
    ensures Inv(Apply(s, a))
  {
    hide Clock.Valid, Files, Reading, Created;
    CreatedBlocks(s, a.x, a.id, a.files);
    CreateKeepsFiles(s, a.x, a.id, a.files);
    BlocksKeepReading(s.readers, s.clock.live, s.entries, s.blocks, Created(s.blocks, a.id, a.files));
    RunningIsClocked(s.clock, a.x);
    NewEntryKeepsReading(s.readers, s.clock.live, s.entries, Created(s.blocks, a.id, a.files), a.id,
                         Entry(a.x, INVALID_XID, a.files));
  }

  lemma CreatedBlocks(s: State, x: Xid, id: SegmentId, files: map<Component, set<BlockNo>>)
    requires Inv(s) && Enabled(s, CreateEntry(x, id, files))
    ensures var after := Created(s.blocks, id, files);
            && after.Keys == s.blocks.Keys
            && (forall b :: b in s.blocks && s.blocks[b].owner != Writer(Txn(x)) ==> after[b] == s.blocks[b])
            && (forall b :: b in s.blocks ==> after[b].xmax == s.blocks[b].xmax)
            && (forall b :: b in s.blocks && after[b] != s.blocks[b] ==>
                  after[b].owner.File? && after[b].xmax == INVALID_XID)
            && (forall c, b :: c in files && b in files[c] ==> b in after && after[b] == Use(INVALID_XID, File(id, c)))
  {
    hide Files, Reading, Free, Pending, Stamps, Clock.Valid;
  }

  lemma CreateKeepsFiles(s: State, x: Xid, id: SegmentId, files: map<Component, set<BlockNo>>)
    requires Inv(s) && Enabled(s, CreateEntry(x, id, files))
    ensures Files(s.entries[id := Entry(x, INVALID_XID, files)], Created(s.blocks, id, files), s.freed)
  {
    hide Created, Clock.Valid, Reading, Free, Pending, Stamps;
    CreatedBlocks(s, x, id, files);
  }

  /** Blocks that change their owner, and were and are in use, stay held. */
  lemma BlocksKeepReading(readers: map<nat, Reader>, live: map<nat, View>, entries: Directory, before: Blocks,
                          after: Blocks)
    requires Reading(readers, live, entries, before) && before.Keys <= after.Keys
    requires forall b :: b in before && after[b] != before[b] ==>
      (after[b].owner.File? || after[b].owner.NoOne?) && after[b].xmax == before[b].xmax
    ensures Reading(readers, live, entries, after)
  {}

  lemma NewEntryKeepsReading(readers: map<nat, Reader>, live: map<nat, View>, entries: Directory, blocks: Blocks,
                             id: SegmentId, e: Entry)
    requires Reading(readers, live, entries, blocks)
    requires id in entries ==> e.xmax == entries[id].xmax || (forall v :: v in live ==> live[v].snap.xmin <= e.xmax)
    ensures Reading(readers, live, entries[id := e], blocks)
  {
    hide Held;
  }

  lemma DropKeeps(s: State, a: Action)
    requires a.DropEntry? && Inv(s) && Enabled(s, a) && SafeStep(s, a)
    ensures Inv(Apply(s, a))
  {
    hide Files, Reading, Pending, LetGo, Marking, Clock.Valid, Free;
    var e, bs := s.entries[a.id], BlocksOf(s.entries[a.id].files);
    RunningIsClocked(s.clock, a.x);
    DropKeepsFiles(s, a);
    DroppedIsNotPassed(s, a);
    LoadedIsPending(s, a.id);
    LetGoKeeps(s.blocks, bs, s.freeSpaceMap, s.growing, s.freed);
    LetGoKeepsPending(s, a.p, bs);
    BlocksKeepReading(s.readers, s.clock.live, s.entries, s.blocks, LetGo(s.blocks, bs));
    RunningIsYounger(s.clock, a.x);
    NewEntryKeepsReading(s.readers, s.clock.live, s.entries, LetGo(s.blocks, bs), a.id, e.(xmax := a.x));
  }

  lemma LetGoKeeps(blocks: Blocks, bs: set<BlockNo>, freeSpaceMap: set<BlockNo>, growing: map<BlockNo, Actor>,
                   freed: Xid)
    requires Uses(blocks) && Free(freeSpaceMap, blocks, growing, freed)
    requires forall b :: b in bs && b in blocks ==> !blocks[b].owner.New?
    ensures Uses(LetGo(blocks, bs)) && Free(freeSpaceMap, LetGo(blocks, bs), growing, freed)
    ensures LetGo(blocks, bs).Keys == blocks.Keys
    ensures forall b :: b in blocks ==>
      LetGo(blocks, bs)[b] == if b in bs then blocks[b].(owner := NoOne) else blocks[b]
  {}

  /** What may be dropped or replaced is not yet passed by vacuum: its blocks are not in the free space map. */
  lemma LoadedIsPending(s: State, id: SegmentId)
    requires Inv(s) && id in s.entries && (s.entries[id].xmax == INVALID_XID || s.freed <= s.entries[id].xmax)
    ensures forall b :: b in BlocksOf(s.entries[id].files) ==>
      && b in s.blocks && b !in s.freeSpaceMap && b !in s.growing
      && (s.blocks[b].owner.File? || s.blocks[b].owner.NoOne?)
  {
    hide Reading, Pending, Stamps, Clock.Valid;
  }

  lemma DroppedIsNotPassed(s: State, a: Action)
    requires a.DropEntry? && Inv(s) && Enabled(s, a)
    ensures s.entries[a.id].xmax == INVALID_XID || s.freed <= s.entries[a.id].xmax
  {
    hide Files, Pending, Stamps, Uses, Free, Held;
  }

  lemma LetGoKeepsPending(s: State, p: Actor, bs: set<BlockNo>)
    requires Inv(s) && Runs(s, p)
    requires forall b :: b in bs ==> b in s.blocks && b !in s.freeSpaceMap
    requires p.Txn? ==> forall b :: b in bs ==> s.blocks[b].xmax == INVALID_XID || p.x <= s.blocks[b].xmax
    ensures Pending(Marking(s.toMark, p, bs), LetGo(s.blocks, bs), s.freeSpaceMap, s.clock.active, s.bulk.Some?)
  {
    hide Files, Uses, Free, Reading, Clock.Valid, Stamps;
  }

  lemma DropKeepsFiles(s: State, a: Action)
    requires a.DropEntry? && Inv(s) && Enabled(s, a) && SafeStep(s, a)
    ensures Files(Apply(s, a).entries, Apply(s, a).blocks, s.freed)
  {
    hide Reading, Pending, Stamps, Marking, Clock.Valid, Free, LetGo;
    var bs := BlocksOf(s.entries[a.id].files);
    DroppedIsNotPassed(s, a);
    LetGoKeeps(s.blocks, bs, s.freeSpaceMap, s.growing, s.freed);
    RunningIsClocked(s.clock, a.x);
  }

  lemma ReplaceKeeps(s: State, a: Action)
    requires a.ReplaceDelete? && Inv(s) && Enabled(s, a)
    ensures Inv(Apply(s, a))
  {
    hide Files, Reading, Pending, Replaced, Marking, Clock.Valid, Free;
    var e := s.entries[a.id];
    ReplacedBlocks(s, a.id, a.file);
    ReplaceKeepsFiles(s, a);
    ReplaceKeepsPending(s, a);
    BlocksKeepReading(s.readers, s.clock.live, s.entries, s.blocks, Apply(s, a).blocks);
    NewEntryKeepsReading(s.readers, s.clock.live, s.entries, Apply(s, a).blocks, a.id,
                         e.(files := e.files[Delete := a.file]));
  }

  lemma ReplacedBlocks(s: State, id: SegmentId, file: set<BlockNo>)
    requires Inv(s) && Enabled(s, ReplaceDelete(id, file))
    ensures var gone := DeleteFile(s.entries[id]);
            var after := Replaced(s.blocks, id, file, gone);
            && gone !! file && after.Keys == s.blocks.Keys
            && (forall b :: b in s.blocks ==> after[b].xmax == s.blocks[b].xmax)
            && (forall b :: b in file ==> b in s.blocks && after[b] == Use(INVALID_XID, File(id, Delete)))
            && (forall b :: b in s.blocks ==>
                  after[b].owner ==
                  if b in file then File(id, Delete) else if b in gone then NoOne else s.blocks[b].owner)
            && Uses(after) && Free(s.freeSpaceMap, after, s.growing, s.freed)
            && (forall b :: b in gone ==> b in s.blocks && b !in s.freeSpaceMap && !s.blocks[b].owner.New?)
  {
    hide Reading, Pending, Stamps, Clock.Valid, Files;
    LoadedIsPending(s, id);
  }

  lemma ReplaceKeepsFiles(s: State, a: Action)
    requires a.ReplaceDelete? && Inv(s) && Enabled(s, a)
    ensures Files(Apply(s, a).entries, Apply(s, a).blocks, s.freed)
  {
    hide Reading, Pending, Stamps, Marking, Clock.Valid, Free, Replaced;
    ReplacedBlocks(s, a.id, a.file);
  }

  lemma ReplaceKeepsPending(s: State, a: Action)
    requires a.ReplaceDelete? && Inv(s) && Enabled(s, a)
    ensures Pending(Apply(s, a).toMark, Apply(s, a).blocks, s.freeSpaceMap, s.clock.active, s.bulk.Some?)
  {
    hide Reading, Files, Stamps, Clock.Valid, Free, Replaced, Uses;
    ReplacedBlocks(s, a.id, a.file);
  }

  lemma MarkKeeps(s: State, a: Action)
    requires a.MarkBlock? && Inv(s) && Enabled(s, a)
    ensures Inv(Apply(s, a))
  {
    hide Reading, Files;
    MarkKeepsFiles(s, a);
    MarkKeepsReading(s, a);
  }

  lemma MarkKeepsFiles(s: State, a: Action)
    requires a.MarkBlock? && Inv(s) && Enabled(s, a)
    ensures Files(s.entries, Apply(s, a).blocks, s.freed)
  {
    hide Reading, Free, Clock.Valid;
  }

  lemma MarkKeepsReading(s: State, a: Action)
    requires a.MarkBlock? && Inv(s) && Enabled(s, a)
    ensures Reading(s.readers, s.clock.live, s.entries, Apply(s, a).blocks)
  {
    hide Files, Free, Stamps;
  }

  lemma CollectKeeps(s: State, a: Action)
    requires a.CollectEntry? && Inv(s) && Enabled(s, a)
    ensures Inv(Apply(s, a))
  {
    hide Held, FileBlock, Uses, Free, Pending, Growing, Clock.Valid;
    RemoveBelowKeepsClock(s.clock, a.horizon);
  }

  lemma VacuumKeeps(s: State, a: Action)
    requires a.VacuumBlock? && Inv(s) && Enabled(s, a)
    ensures Inv(Apply(s, a))
  {
    hide Stamps, Held, Clock.Valid, Reading;
    RemoveBelowKeepsClock(s.clock, a.horizon);
  }

  lemma LoadKeeps(s: State, a: Action)
    requires a.Load? && Inv(s) && Enabled(s, a)
    ensures Inv(Apply(s, a))
  {
    hide Files, Free, Uses, Clock.Valid, Pending, Stamps, Reading;
    var view := s.clock.live[a.v];
    forall id | id in s.entries && s.entries[id].Visible(view)
      ensures s.entries[id].xmax == INVALID_XID || view.snap.xmin <= s.entries[id].xmax
    {
      if s.entries[id].xmax != INVALID_XID {
        UnseenIsKept(s.clock, a.v, s.entries[id].xmax);
      }
    }
    LoadKeepsReading(s.readers, s.clock.live, s.entries, s.blocks, a.v,
                     set id | id in s.entries && s.entries[id].Visible(view));
  }

  lemma LoadKeepsReading(readers: map<nat, Reader>, live: map<nat, View>, entries: Directory, blocks: Blocks,
                         v: nat, loaded: set<SegmentId>)
    requires Reading(readers, live, entries, blocks) && v in live
    requires forall id :: id in loaded ==>
      id in entries && (entries[id].xmax == INVALID_XID || live[v].snap.xmin <= entries[id].xmax)
    ensures Reading(readers[v := Reader(loaded, if v in readers then readers[v].handles else {})], live, entries,
                    blocks)
  {
    hide Held;
  }

  lemma OpenKeeps(s: State, a: Action)
    requires a.Open? && Inv(s) && Enabled(s, a)
    ensures Inv(Apply(s, a))
  {
    OpenReads(s, a);
    hide Free, Stamps, Pending, Growing, Files, Reading, Uses, BulkRuns;
    hide Clock.Valid, LetGo, Created, Replaced, BlocksOf;
  }

  lemma OpenReads(s: State, a: Action)
    requires a.Open? && Inv(s) && Enabled(s, a)
    ensures Reading(Apply(s, a).readers, s.clock.live, s.entries, s.blocks)
  {
    hide Free, Stamps, Pending, Growing, BulkRuns, LetGo, Created, Replaced, Files, Uses;
    var xmin := s.clock.live[a.v].snap.xmin;
    hide Held;
    forall b | b in s.entries[a.id].files[a.c] ensures b in s.blocks && Held(s.blocks[b], xmin) {
      FileIsHeld(s, a.v, a.id, a.c, b);
    }
  }

  // ---------------------------------------------------------------------------------------------
  // Safety
  // ---------------------------------------------------------------------------------------------

  ghost function FilesOf(s: State, ids: set<SegmentId>): set<BlockNo> {
    set id, b | id in ids && id in s.entries && b in BlocksOf(s.entries[id].files) :: b
  }

  ghost function VisibleTo(s: State, view: View): set<SegmentId> {
    set id | id in s.entries && s.entries[id].Visible(view)
  }

  /** The blocks a snapshot in use may read: of the files opened under it, of the segments loaded under it,
      and of those it would load now. */
  ghost function Readable(s: State, v: nat): set<BlockNo>
    requires v in s.clock.live
  {
    FilesOf(s, VisibleTo(s, s.clock.live[v]))
    + if v in s.readers then s.readers[v].handles + FilesOf(s, s.readers[v].loaded) else {}
  }

  /** Not in the free space map, not to be found free, nor about to be made a page, and not being written. */
  ghost predicate Untouchable(s: State, b: BlockNo) {
    && b in s.blocks && b !in s.freeSpaceMap && b !in s.growing
    && !s.blocks[b].owner.Writer? && !s.blocks[b].owner.New?
    && forall horizon :: s.clock.MayRemoveBelow(horizon) ==> !RecyclableBlock(s.blocks[b], horizon)
  }

  /** No snapshot in use may read anything that is not untouchable. */
  ghost predicate Spared(s: State) {
    forall v, b :: v in s.clock.live && b in Readable(s, v) ==> Untouchable(s, b)
  }

  lemma HeldIsUntouchable(s: State, v: nat, b: BlockNo)
    requires Inv(s) && v in s.clock.live && b in s.blocks && Held(s.blocks[b], s.clock.live[v].snap.xmin)
    ensures Untouchable(s, b)
  {
    hide Files, Stamps, Uses, Reading, Pending;
  }

  lemma FileIsHeld(s: State, v: nat, id: SegmentId, c: Component, b: BlockNo)
    requires Inv(s) && v in s.clock.live && id in s.entries && c in s.entries[id].files && b in s.entries[id].files[c]
    requires s.entries[id].xmax == INVALID_XID || s.clock.live[v].snap.xmin <= s.entries[id].xmax
    ensures b in s.blocks && Held(s.blocks[b], s.clock.live[v].snap.xmin)
  {
    hide Free, Stamps, Reading, Pending;
  }

  /** In every run in which entries are dropped and new blocks recorded safely, what a snapshot in use may read
      stays out of the free space map and of reuse. */
  lemma ReadableIsUntouchable(actions: seq<Action>)
    requires Run(actions).Some? && AllSafe(actions)
    ensures Spared(Run(actions).value)
  {
    hide Inv, Run, AllSafe, Untouchable;
    InvHolds(actions);
    var s := Run(actions).value;
    forall v, b | v in s.clock.live && b in Readable(s, v) ensures Untouchable(s, b) {
      InvSpares(s, v, b);
    }
  }

  lemma InvSpares(s: State, v: nat, b: BlockNo)
    requires Inv(s) && v in s.clock.live && b in Readable(s, v)
    ensures Untouchable(s, b)
  {
    hide Inv, Untouchable, Held, Clock.Valid;
    var ids := VisibleTo(s, s.clock.live[v]) + if v in s.readers then s.readers[v].loaded else {};
    if b in FilesOf(s, ids) {
      var id, c :| id in ids && id in s.entries && c in s.entries[id].files && b in s.entries[id].files[c];
      SegmentIsKept(s, v, id);
      FileIsHeld(s, v, id, c, b);
    } else {
      HandleIsHeld(s, v, b);
    }
    HeldIsUntouchable(s, v, b);
  }

  lemma HandleIsHeld(s: State, v: nat, b: BlockNo)
    requires Inv(s) && v in s.readers && b in s.readers[v].handles
    ensures v in s.clock.live && b in s.blocks && Held(s.blocks[b], s.clock.live[v].snap.xmin)
  {}

  lemma SegmentIsKept(s: State, v: nat, id: SegmentId)
    requires Inv(s) && v in s.clock.live
    requires id in VisibleTo(s, s.clock.live[v]) || (v in s.readers && id in s.readers[v].loaded)
    ensures id in s.entries
    ensures s.entries[id].xmax == INVALID_XID || s.clock.live[v].snap.xmin <= s.entries[id].xmax
  {
    hide Files, Free, Pending, Uses;
    if id in VisibleTo(s, s.clock.live[v]) && s.entries[id].xmax != INVALID_XID {
      UnseenIsKept(s.clock, v, s.entries[id].xmax);
    }
  }

  /** No step of such a run hands out such a block, or returns it to the free space map, or removes the entry
      of a segment that was loaded: a reader finds what it opens, and what it opened stays as it was. */
  lemma StepSparesReaders(actions: seq<Action>, a: Action, v: nat, b: BlockNo)
    requires Run(actions).Some? && AllSafe(actions) && Enabled(Run(actions).value, a)
    requires v in Run(actions).value.clock.live && b in Readable(Run(actions).value, v)
    ensures var s := Run(actions).value;
            var t := Apply(s, a);
            && b !in t.freeSpaceMap && b in t.blocks && !t.blocks[b].owner.Writer?
            && (v in t.clock.live && v in s.readers ==>
                  v in t.readers && s.readers[v].handles <= t.readers[v].handles
                  && forall id :: id in s.readers[v].loaded ==> id in t.entries)
  {
    hide Inv, Run, AllSafe, Clock.Valid, Readable;
    InvHolds(actions);
    var s := Run(actions).value;
    InvSpares(s, v, b);
    if v in s.readers {
      forall id | id in s.readers[v].loaded ensures id in s.entries
        && (s.entries[id].xmax == INVALID_XID || s.clock.live[v].snap.xmin <= s.entries[id].xmax) {
        SegmentIsKept(s, v, id);
      }
    }
  }

  // ---------------------------------------------------------------------------------------------
  // A drop that is not safe
  // ---------------------------------------------------------------------------------------------

  lemma Step(actions: seq<Action>, a: Action) returns (longer: seq<Action>, t: State)
    requires Run(actions).Some? && Enabled(Run(actions).value, a)
    ensures longer == actions + [a] && Run(longer) == Some(t) && t == Apply(Run(actions).value, a)
  {
    longer := actions + [a];
    assert longer[..|longer| - 1] == actions;
    t := Apply(Run(actions).value, a);
  }

  /** No further drops, and no new block is recorded as free. */
  ghost predicate NoHazards(more: seq<Action>) {
    forall i :: 0 <= i < |more| ==> !more[i].DropEntry? && !more[i].VacuumNew?
  }

  /** The same entries and blocks. */
  ghost predicate SameFiles(s: State, t: State) {
    t.entries == s.entries && t.blocks == s.blocks && t.clock.nextXid == s.clock.nextXid
    && t.clock.oldest == s.clock.oldest
  }

  /** All the other transactions finish. */
  lemma {:induction false} OthersFinish(actions: seq<Action>, more: seq<Action>, x: Xid)
    returns (longer: seq<Action>, t: State)
    requires NoHazards(more) && Run(actions + more).Some? && Run(actions + more).value.clock.Valid()
    requires var s := Run(actions + more).value; x in s.clock.active && BulkRuns(s.bulk, s.clock.active)
    ensures NoHazards(longer) && Run(actions + longer) == Some(t) && SameFiles(Run(actions + more).value, t)
    ensures t.clock.Valid() && t.clock.active == {x} && BulkRuns(t.bulk, t.clock.active)
    decreases |Run(actions + more).value.clock.active|
  {
    hide Run, Clock.Valid;
    var s := Run(actions + more).value;
    if y :| y in s.clock.active && y != x {
      var run, u := Step(actions + more, Finish(y));
      FinishKeepsClock(s.clock, y);
      assert run == actions + (more + [Finish(y)]);
      assert u.clock.active == s.clock.active - {y};
      longer, t := OthersFinish(actions, more + [Finish(y)], x);
    } else {
      longer, t := more, s;
    }
  }

  /** All the snapshots are released. */
  lemma {:induction false} AllRelease(actions: seq<Action>, more: seq<Action>) returns (longer: seq<Action>, t: State)
    requires NoHazards(more) && Run(actions + more).Some? && Run(actions + more).value.clock.Valid()
    ensures NoHazards(longer) && Run(actions + longer) == Some(t) && SameFiles(Run(actions + more).value, t)
    ensures t.clock.Valid() && t.clock.live == map[] && t.clock.active == Run(actions + more).value.clock.active
    ensures t.bulk == Run(actions + more).value.bulk
    decreases |Run(actions + more).value.clock.live|
  {
    hide Run, Clock.Valid;
    var s := Run(actions + more).value;
    if v :| v in s.clock.live {
      var run, u := Step(actions + more, ReleaseSnapshot(v));
      ReleaseKeepsClock(s.clock, v);
      assert run == actions + (more + [ReleaseSnapshot(v)]);
      assert u.clock.live == s.clock.live - {v};
      assert |u.clock.live| < |s.clock.live|;
      longer, t := AllRelease(actions, more + [ReleaseSnapshot(v)]);
    } else {
      longer, t := more, s;
    }
  }

  /**
   An entry is dropped again whose page is marked with an older id, and the transaction ends before it marks
   the page again: a snapshot taken in between sees the entry, and vacuum returns the page to the free space
   map.
   */
  lemma UnsafeDropFrees(actions: seq<Action>, drop: Action)
    returns (more: seq<Action>, t: State, v: nat, b: BlockNo)
    requires Run(actions).Some? && AllSafe(actions) && drop.DropEntry?
    requires Enabled(Run(actions).value, drop) && !SafeStep(Run(actions).value, drop)
    ensures NoHazards(more) && Run(actions + [drop] + more) == Some(t)
    ensures v in t.clock.live && b in Readable(t, v) && b in t.freeSpaceMap
  {
    hide Run, AllSafe, Clock.Valid, Inv, Readable;
    InvHolds(actions);
    var s := Run(actions).value;
    b := UnsafeBlock(s, drop);
    var dropped, s1 := Step(actions, drop);
    InvIsClocked(s);
    DroppedAgain(s, drop, b);
    assert dropped + [] == dropped;
    var more1, s2 := OthersFinish(dropped, [], drop.x);
    var more2, s3 := AllRelease(dropped, more1);
    more, t := AbortAndVacuum(dropped, more2, drop.x, drop.id, b);
    v := 0;
  }

  /** The last three steps: a reader's snapshot, the end of the bulk delete, and vacuum. */
  lemma AbortAndVacuum(actions: seq<Action>, before: seq<Action>, x: Xid, id: SegmentId, b: BlockNo)
    returns (more: seq<Action>, t: State)
    requires NoHazards(before) && Run(actions + before).Some?
    requires var s := Run(actions + before).value;
             && s.clock.Valid() && s.clock.active == {x} && s.clock.live == map[]
             && BulkRuns(s.bulk, s.clock.active)
             && id in s.entries && s.entries[id].xmax == x && s.entries[id].xmin < x < s.clock.nextXid
             && b in BlocksOf(s.entries[id].files) && b in s.blocks && INVALID_XID != s.blocks[b].xmax < x
    ensures NoHazards(more) && Run(actions + more) == Some(t)
    ensures 0 in t.clock.live && b in Readable(t, 0) && b in t.freeSpaceMap
  {
    hide Run, Clock.Valid;
    var s := Run(actions + before).value;
    SnapshotSees(s, x);
    var run4, s4 := Step(actions + before, TakeSnapshot(0, x, None));
    var run5, s5 := Step(run4, Finish(x));
    more := before + [TakeSnapshot(0, x, None), Finish(x)];
    assert run5 == actions + more;
    if s5.bulk.Some? {
      run5, s5 := Step(run5, AbortBulk);
      more := more + [AbortBulk];
      assert run5 == actions + more;
    }
    var run6;
    run6, t := Step(run5, VacuumBlock(b, x));
    more := more + [VacuumBlock(b, x)];
    assert run6 == actions + more;
    assert t.clock.live == map[0 := View(Snapshot(x, s.clock.nextXid, {x}), None)];
    assert t.entries[id].Visible(t.clock.live[0]);
  }

  lemma InvIsClocked(s: State)
    requires Inv(s)
    ensures s.clock.Valid() && BulkRuns(s.bulk, s.clock.active)
  {}

  lemma UnsafeBlock(s: State, drop: Action) returns (b: BlockNo)
    requires Inv(s) && drop.DropEntry? && Enabled(s, drop) && !SafeStep(s, drop)
    ensures b in BlocksOf(s.entries[drop.id].files) && b in s.blocks
    ensures INVALID_XID != s.blocks[b].xmax < drop.x && s.entries[drop.id].xmin < drop.x < s.clock.nextXid
  {
    hide Reading, Free, Pending, Uses;
    DroppedIsNotPassed(s, drop);
    RunningIsClocked(s.clock, drop.x);
    b :| b in BlocksOf(s.entries[drop.id].files) && b in s.blocks
         && !(s.blocks[b].xmax == INVALID_XID || drop.x <= s.blocks[b].xmax);
  }

  lemma DroppedAgain(s: State, drop: Action, b: BlockNo)
    requires drop.DropEntry? && Enabled(s, drop) && b in s.blocks
    ensures var t := Apply(s, drop);
            && t.clock == s.clock && t.bulk == s.bulk && b in t.blocks && t.blocks[b].xmax == s.blocks[b].xmax
            && drop.id in t.entries && t.entries[drop.id] == s.entries[drop.id].(xmax := drop.x)
  {
    hide Marking;
  }

  lemma SnapshotSees(s: State, x: Xid)
    requires s.clock.Valid() && s.clock.active == {x} && s.clock.live == map[]
    ensures s.clock.CanTakeSnapshot(0, x, None)
  {}

  /**
   Exactly then: dropping an entry can do no reader harm, whatever happens after it but further drops, if
   and only if no page of its files carries a mark older than the transaction that drops it.
   */
  lemma DropIsSafeIff(actions: seq<Action>, drop: Action)
    requires Run(actions).Some? && AllSafe(actions) && drop.DropEntry? && Enabled(Run(actions).value, drop)
    ensures SafeStep(Run(actions).value, drop) <==>
            forall more :: NoHazards(more) && Run(actions + [drop] + more).Some? ==>
              Spared(Run(actions + [drop] + more).value)
  {
    hide Run, AllSafe, SafeStep, Spared, NoHazards;
    if SafeStep(Run(actions).value, drop) {
      forall more | NoHazards(more) && Run(actions + [drop] + more).Some?
        ensures Spared(Run(actions + [drop] + more).value)
      {
        StillSafe(actions, drop, more);
        ReadableIsUntouchable(actions + [drop] + more);
      }
    } else {
      var more, t, v, b := UnsafeDropFrees(actions, drop);
      FreedIsNotSpared(t, v, b);
    }
  }

  lemma FreedIsNotSpared(t: State, v: nat, b: BlockNo)
    requires v in t.clock.live && b in Readable(t, v) && b in t.freeSpaceMap
    ensures !Spared(t)
  {
    hide Readable;
    assert !Untouchable(t, b);
  }

  lemma {:induction false} StillSafe(actions: seq<Action>, drop: Action, more: seq<Action>)
    requires Run(actions).Some? && AllSafe(actions) && SafeStep(Run(actions).value, drop) && NoHazards(more)
    ensures AllSafe(actions + [drop] + more)
  {
    hide Run, Inv, Enabled;
    var all := actions + [drop] + more;
    if more == [] {
      assert all == actions + [drop] && all[..|all| - 1] == actions;
    } else {
      var front := more[..|more| - 1];
      assert all[..|all| - 1] == actions + [drop] + front && all[|all| - 1] == more[|more| - 1];
      StillSafe(actions, drop, front);
    }
  }

  // ---------------------------------------------------------------------------------------------
  // A record that is not safe
  // ---------------------------------------------------------------------------------------------

  lemma {:induction false} FreshNat(s: set<nat>) returns (n: nat)
    ensures n !in s && forall m :: m in s ==> m < n
  {
    if s == {} {
      n := 0;
    } else {
      var m :| m in s;
      var n0 := FreshNat(s - {m});
      n := if n0 <= m then m + 1 else n0;
      forall k | k in s ensures k < n {
        assert k == m || k in s - {m};
      }
    }
  }

  lemma {:induction false} Oldest(s: set<Xid>, next: Xid) returns (xmin: Xid)
    requires forall x :: x in s ==> x < next
    ensures (xmin in s || xmin == next) && forall x :: x in s ==> xmin <= x
  {
    xmin := next;
    if s != {} {
      var y :| y in s;
      var rest := Oldest(s - {y}, next);
      xmin := if y < rest then y else rest;
      forall x | x in s ensures xmin <= x {
        assert x == y || x in s - {y};
      }
    }
  }

  lemma ActiveIsClocked(c: Clock)
    requires c.Valid()
    ensures forall x :: x in c.active ==> x < c.nextXid
  {}

  /** A snapshot is taken, and its transaction gets an id. */
  lemma ReaderBegins(actions: seq<Action>, before: seq<Action>)
    returns (more: seq<Action>, t: State, v: nat, x: Xid)
    requires NoHazards(before) && Run(actions + before).Some? && Run(actions + before).value.clock.Valid()
    ensures NoHazards(more) && Run(actions + more) == Some(t)
    ensures x in t.clock.active && v in t.clock.live && t.clock.live[v].current == Some(x)
    ensures t == Run(actions + before).value.(clock := t.clock)
  {
    hide Run, Clock.Valid, RegardsAsRunning;
    var s := Run(actions + before).value;
    ActiveIsClocked(s.clock);
    var xmin := Oldest(s.clock.active, s.clock.nextXid);
    v := FreshNat(s.clock.live.Keys);
    x := s.clock.nextXid;
    var run1, s1 := Step(actions + before, TakeSnapshot(v, xmin, None));
    var run2;
    run2, t := Step(run1, Assign({v}));
    more := before + [TakeSnapshot(v, xmin, None), Assign({v})];
    assert run2 == actions + more;
  }

  /**
   A new block is recorded as free before whoever added it has locked it: another transaction takes it and
   makes it its segment's file, and then the first locks it and starts its own file on it.
   */
  lemma UnsafeRecordShares(actions: seq<Action>, b: BlockNo)
    returns (more: seq<Action>, t: State, v: nat)
    requires Run(actions).Some? && AllSafe(actions) && Enabled(Run(actions).value, VacuumNew(b))
    requires b in Run(actions).value.growing
    ensures NoHazards(more) && Run(actions + [VacuumNew(b)] + more) == Some(t)
    ensures v in t.clock.live && b in Readable(t, v) && b in t.blocks
    ensures t.blocks[b].owner == Writer(Run(actions).value.growing[b])
  {
    hide Run, AllSafe, Clock.Valid, Inv, Readable;
    InvHolds(actions);
    var s := Run(actions).value;
    var recorded, s1 := Step(actions, VacuumNew(b));
    InvIsClocked(s);
    assert recorded + [] == recorded;
    var x, s2;
    more, s2, v, x := ReaderBegins(recorded, []);
    more, t := TwoFiles(recorded, more, x, v, b);
  }

  lemma TwoFiles(actions: seq<Action>, before: seq<Action>, x: Xid, v: nat, b: BlockNo)
    returns (more: seq<Action>, t: State)
    requires NoHazards(before) && Run(actions + before).Some?
    requires var s := Run(actions + before).value;
             && x in s.clock.active && v in s.clock.live && s.clock.live[v].current == Some(x)
             && b in s.freeSpaceMap && b in s.growing && b in s.blocks && s.blocks[b].owner.New?
    ensures NoHazards(more) && Run(actions + more) == Some(t)
    ensures v in t.clock.live && b in Readable(t, v) && b in t.blocks
    ensures t.blocks[b].owner == Writer(Run(actions + before).value.growing[b])
  {
    hide Run, Created;
    var s := Run(actions + before).value;
    var id := FreshNat(s.entries.Keys);
    var files := map[Store := {b}];
    var run1, s1 := Step(actions + before, TakeFree(Txn(x), b, INVALID_XID));
    var run2, s2 := Step(run1, CreateEntry(x, id, files));
    var run3;
    run3, t := Step(run2, InitNew(s.growing[b], b));
    more := before + [TakeFree(Txn(x), b, INVALID_XID), CreateEntry(x, id, files), InitNew(s.growing[b], b)];
    assert run3 == actions + more;
    assert id in VisibleTo(t, t.clock.live[v]) && b in BlocksOf(files) by {
      assert Store in files && b in files[Store];
    }
  }

  /**
   Exactly then: recording a new block as free can do no reader harm, whatever happens after it but drops
   and further such records, if and only if whoever added the block has locked it or is gone.
   */
  lemma RecordIsSafeIff(actions: seq<Action>, b: BlockNo)
    requires Run(actions).Some? && AllSafe(actions) && Enabled(Run(actions).value, VacuumNew(b))
    ensures b !in Run(actions).value.growing <==>
            forall more :: NoHazards(more) && Run(actions + [VacuumNew(b)] + more).Some? ==>
              Spared(Run(actions + [VacuumNew(b)] + more).value)
  {
    hide Run, AllSafe, Spared, NoHazards, Enabled;
    if b !in Run(actions).value.growing {
      forall more | NoHazards(more) && Run(actions + [VacuumNew(b)] + more).Some?
        ensures Spared(Run(actions + [VacuumNew(b)] + more).value)
      {
        StillSafe(actions, VacuumNew(b), more);
        ReadableIsUntouchable(actions + [VacuumNew(b)] + more);
      }
    } else {
      var more, t, v := UnsafeRecordShares(actions, b);
      WrittenIsNotSpared(t, v, b);
    }
  }

  lemma WrittenIsNotSpared(t: State, v: nat, b: BlockNo)
    requires v in t.clock.live && b in Readable(t, v) && b in t.blocks && t.blocks[b].owner.Writer?
    ensures !Spared(t)
  {
    hide Readable;
    assert !Untouchable(t, b);
  }

  lemma RunOfNothing()
    ensures Run([]) == Some(INIT) && AllSafe([])
  {}

  lemma SafelyStep(actions: seq<Action>, a: Action) returns (longer: seq<Action>, t: State)
    requires Run(actions).Some? && Enabled(Run(actions).value, a)
    requires AllSafe(actions) && SafeStep(Run(actions).value, a)
    ensures Run(longer) == Some(t) && t == Apply(Run(actions).value, a) && AllSafe(longer)
  {
    longer := actions + [a];
    assert longer[..|longer| - 1] == actions;
    t := Apply(Run(actions).value, a);
  }

  /** No bulk delete runs, nothing waits to be marked, and the free space map is empty. */
  ghost predicate Quiet(s: State) {
    s.bulk == None && s.toMark == {} && s.freeSpaceMap == {} && s.growing == map[]
  }

  lemma OneBlock() returns (actions: seq<Action>, s: State)
    ensures Run(actions) == Some(s) && AllSafe(actions) && Quiet(s)
    ensures s.clock == START.(nextXid := 4, active := {3}) && s.freed == INVALID_XID
    ensures s.entries == map[] && s.blocks == map[20 := Use(INVALID_XID, Writer(Txn(3)))]
  {
    hide Run, AllSafe;
    RunOfNothing();
    actions, s := SafelyStep([], Assign({}));
    assert s.clock.live == map[];
    actions, s := SafelyStep(actions, Extend(Txn(3), 20));
    actions, s := SafelyStep(actions, InitNew(Txn(3), 20));
    assert s.growing == map[];
  }

  /** Transaction 3 creates segment 1, whose one file has one block. */
  lemma OneSegment() returns (actions: seq<Action>, s: State)
    ensures Run(actions) == Some(s) && AllSafe(actions) && Quiet(s)
    ensures s.clock == START.(nextXid := 4) && s.freed == INVALID_XID
    ensures s.entries == map[1 := Entry(3, INVALID_XID, map[Store := {20}])]
    ensures s.blocks.Keys == {20} && s.blocks[20] == Use(INVALID_XID, File(1, Store))
  {
    hide Run, AllSafe, Created;
    actions, s := OneBlock();
    CreatedIs(s.blocks, 1);
    actions, s := SafelyStep(actions, CreateEntry(3, 1, map[Store := {20}]));
    actions, s := SafelyStep(actions, Finish(3));
    assert s.clock.live == map[] && s.clock.active == {} && s.toMark == {} && s.growing == map[];
  }

  /** Transaction 4 merges it away. */
  lemma Merged() returns (actions: seq<Action>, s: State)
    ensures Run(actions) == Some(s) && AllSafe(actions) && Quiet(s.(toMark := {}))
    ensures s.clock == START.(nextXid := 5, active := {4}) && s.freed == INVALID_XID
    ensures s.entries == map[1 := Entry(3, 4, map[Store := {20}])]
    ensures s.blocks == map[20 := Use(INVALID_XID, NoOne)] && s.toMark == {(Txn(4), 20)}
  {
    hide Run, AllSafe;
    actions, s := OneSegment();
    actions, s := SafelyStep(actions, Assign({}));
    assert s.clock.live == map[];
    assert BlocksOf(map[Store := {20}]) == {20} by { assert 20 in map[Store := {20}][Store]; }
    actions, s := SafelyStep(actions, DropEntry(Txn(4), 4, 1));
    assert s.toMark == {(Txn(4), 20)} && s.blocks == map[20 := Use(INVALID_XID, NoOne)];
  }

  /** And marks its block; the next id is 5 then. */
  lemma MergedAway() returns (actions: seq<Action>, s: State)
    ensures Run(actions) == Some(s) && AllSafe(actions) && Quiet(s)
    ensures s.clock == START.(nextXid := 5) && s.freed == INVALID_XID
    ensures s.entries == map[1 := Entry(3, 4, map[Store := {20}])] && s.blocks == map[20 := Use(5, NoOne)]
  {
    hide Run, AllSafe;
    actions, s := Merged();
    actions, s := SafelyStep(actions, MarkBlock(Txn(4), 20));
    assert s.toMark == {} && s.blocks == map[20 := Use(5, NoOne)];
    actions, s := SafelyStep(actions, Finish(4));
    assert s.clock.live == map[] && s.clock.active == {} && s.growing == map[];
  }

  /** A transaction comes and goes. */
  lemma FifthCameAndWent() returns (actions: seq<Action>, s: State)
    ensures Run(actions) == Some(s) && AllSafe(actions) && Quiet(s)
    ensures s.clock == START.(nextXid := 6) && s.freed == INVALID_XID
    ensures s.entries == map[1 := Entry(3, 4, map[Store := {20}])] && s.blocks == map[20 := Use(5, NoOne)]
  {
    hide Run, AllSafe;
    actions, s := MergedAway();
    actions, s := SafelyStep(actions, Assign({}));
    actions, s := SafelyStep(actions, Finish(5));
    assert s.clock.live == map[] && s.clock.active == {} && s.toMark == {} && s.growing == map[];
  }

  /** And a bulk delete does. */
  lemma BulkCameAndWent() returns (actions: seq<Action>, s: State)
    ensures Run(actions) == Some(s) && AllSafe(actions) && Quiet(s)
    ensures s.clock == START.(nextXid := 6) && s.freed == INVALID_XID
    ensures s.entries == map[1 := Entry(3, 4, map[Store := {20}])] && s.blocks == map[20 := Use(5, NoOne)]
  {
    hide Run, AllSafe;
    actions, s := FifthCameAndWent();
    actions, s := SafelyStep(actions, BeginBulk(3));
    actions, s := SafelyStep(actions, EndBulk);
  }

  /** The entry is collected. */
  lemma EntryCollected() returns (actions: seq<Action>, s: State)
    ensures Run(actions) == Some(s) && AllSafe(actions) && Quiet(s)
    ensures s.clock == START.(nextXid := 6, oldest := 6) && s.freed == INVALID_XID
    ensures s.entries == map[] && s.blocks == map[20 := Use(5, NoOne)]
  {
    hide Run, AllSafe;
    actions, s := BulkCameAndWent();
    actions, s := SafelyStep(actions, CollectEntry(1, 6));
  }

  /** Vacuum returns its block. */
  lemma BlockReturned() returns (actions: seq<Action>, s: State)
    ensures Run(actions) == Some(s) && AllSafe(actions)
    ensures s.clock == START.(nextXid := 6, oldest := 6) && s.entries == map[] && s.blocks == map[20 := Use(5, NoOne)]
    ensures s.freeSpaceMap == {20} && Quiet(s.(freeSpaceMap := {}))
  {
    hide Run, AllSafe;
    actions, s := EntryCollected();
    actions, s := SafelyStep(actions, VacuumBlock(20, 6));
  }

  /** A transaction comes and goes, and another begins. */
  lemma SeventhBegins() returns (actions: seq<Action>, s: State)
    ensures Run(actions) == Some(s) && AllSafe(actions)
    ensures s.clock == START.(nextXid := 8, active := {7}, oldest := 6)
    ensures s.entries == map[] && s.blocks == map[20 := Use(5, NoOne)]
    ensures s.freeSpaceMap == {20} && Quiet(s.(freeSpaceMap := {}))
  {
    hide Run, AllSafe;
    actions, s := BlockReturned();
    actions, s := SafelyStep(actions, Assign({}));
    actions, s := SafelyStep(actions, Finish(6));
    assert s.clock.live == map[] && s.clock.active == {} && s.toMark == {} && s.growing == map[];
    actions, s := SafelyStep(actions, Assign({}));
    assert s.clock.live == map[] && s.clock.active == {7};
  }

  /** And makes the block of segment 1 one of segment 2. */
  lemma BlockIsReused() returns (actions: seq<Action>, s: State)
    ensures Run(actions) == Some(s) && AllSafe(actions) && Quiet(s) && s.clock.oldest == 7
    ensures s.entries == map[2 := Entry(7, INVALID_XID, map[Store := {20}])]
    ensures s.blocks.Keys == {20} && s.blocks[20] == Use(INVALID_XID, File(2, Store))
  {
    hide Run, AllSafe, Created;
    actions, s := SeventhBegins();
    actions, s := SafelyStep(actions, TakeFree(Txn(7), 20, 7));
    assert s.blocks == map[20 := Use(INVALID_XID, Writer(Txn(7)))];
    assert Store in map[Store := {20}] && 20 in map[Store := {20}][Store];
    actions, s := SafelyStep(actions, CreateEntry(7, 2, map[Store := {20}]));
    CreatedIs(map[20 := Use(INVALID_XID, Writer(Txn(7)))], 2);
  }

  lemma CreatedIs(blocks: Blocks, id: SegmentId)
    requires 20 in blocks
    ensures Created(blocks, id, map[Store := {20}]).Keys == blocks.Keys
    ensures Created(blocks, id, map[Store := {20}])[20] == blocks[20].(owner := File(id, Store))
  {
    assert Store in map[Store := {20}] && 20 in map[Store := {20}][Store];
  }

  lemma BulkBegins() returns (actions: seq<Action>, s: State)
    ensures Run(actions) == Some(s) && AllSafe(actions)
    ensures s.clock.nextXid == 7 && 6 in s.clock.active && s.bulk == Some(Bulk(None, 3))
    ensures s.entries == map[1 := Entry(3, 4, map[Store := {20}])]
    ensures s.blocks.Keys == {20} && s.blocks[20] == Use(5, NoOne)
  {
    hide Run, AllSafe;
    actions, s := MergedAway();
    actions, s := SafelyStep(actions, BeginBulk(3));
    actions, s := SafelyStep(actions, Assign({}));
    actions, s := SafelyStep(actions, Assign({}));
  }

  /** A bulk delete loads the deleted entry, gets id 6, and is about to drop it again: that is not safe. */
  lemma UnsafeDropHappens() returns (actions: seq<Action>, drop: Action)
    ensures Run(actions).Some? && AllSafe(actions) && drop.DropEntry?
    ensures Enabled(Run(actions).value, drop) && !SafeStep(Run(actions).value, drop)
  {
    hide Run, AllSafe;
    var s;
    actions, s := BulkBegins();
    actions, s := SafelyStep(actions, GetBulkId(6));
    drop := DropEntry(Vacuum, 6, 1);
    assert 20 in BlocksOf(s.entries[1].files) by { assert 20 in s.entries[1].files[Store]; }
  }

  /** Transaction 3 has added block 20, and vacuum is about to record it: that is not safe. */
  lemma UnsafeRecordHappens() returns (actions: seq<Action>)
    ensures Run(actions).Some? && AllSafe(actions) && Enabled(Run(actions).value, VacuumNew(20))
    ensures !SafeStep(Run(actions).value, VacuumNew(20))
  {
    hide Run, AllSafe;
    var s;
    RunOfNothing();
    actions, s := SafelyStep([], Assign({}));
    actions, s := SafelyStep(actions, Extend(Txn(3), 20));
  }
}
