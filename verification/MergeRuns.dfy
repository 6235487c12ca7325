/**
 Runs of inserting and merging transactions over the segment entries of one index: what snapshots,
 the merge lock and garbage collection together promise about each document.

 Entries are kept twice: `disk` is the map the list of entries represents, garbage collected and
 frozen on the way; `written` keeps every entry ever written, with its documents and its ids as they
 were before any freezing.
 */
module MergeRuns {
  import opened Wrappers
  import opened Block
  import opened Transactions
  import opened GarbageCollection
  import opened SegmentMetas

  type Doc = nat

  datatype Segment = Segment(xmin: Xid, xmax: Xid, docs: multiset<Doc>)

  type Written = map<SegmentId, Segment>

  /**
   An index writer of transaction `x`: the segments it loaded under its snapshot, and made since.  A
   transaction may have any number of them.  `overtaken`: another writer of `x` has merged since it loaded.
   */
  datatype Writer = Writer(x: Xid, holding: nat, snap: Snapshot, loaded: set<SegmentId>, overtaken: bool) {
    function AsView(): View { View(snap, Some(x)) }
  }

  type Writers = map<nat, Writer>

  datatype State = State(
    clock: Clock,
    writers: Writers,
    lastMerge: Xid,
    holder: Option<nat>,
    disk: Entries,
    exposed: set<nat>,              // writers open while another transaction has had the lock
    // for the proof only
    mergers: set<Xid>,
    granted: map<Xid, Snapshot>,
    written: Written,
    inserted: map<Doc, Xid>,
    line: map<Doc, seq<SegmentId>>)

  const INIT := State(START, map[], INVALID_XID, None, map[], {}, {}, map[], map[], map[], map[])

  datatype Action =
    | Assign(views: set<nat>)                                   // a transaction gets its id
    | TakeSnapshot(v: nat, xmin: Xid, current: Option<Xid>)
    | ReleaseSnapshot(v: nat)
    | OpenWriter(w: nat, x: Xid, v: nat)
    | Insert(w: nat, save: Save, id: SegmentId, docs: set<Doc>)
    | LoseInsert(w: nat, docs: set<Doc>)                        // onto a page that a collection has emptied
    | AcquireForMerge(w: nat, v: nat)
    | Merge(w: nat, save: Save, id: SegmentId)
    | DropMergeLock(w: nat)
    | CloseWriter(w: nat)
    | Collect(env: Env)
    | Finish(x: Xid)                                            // commit or abort

  ghost predicate Enabled(s: State, a: Action) {
    match a
    case Assign(views) => s.clock.CanAssign(views)
    case TakeSnapshot(v, xmin, current) => s.clock.CanTakeSnapshot(v, xmin, current)
    case ReleaseSnapshot(v) => v in s.clock.live && forall w :: w in s.writers ==> s.writers[w].holding != v
    case OpenWriter(w, x, v) =>
      w !in s.writers && x in s.clock.active && v in s.clock.live && s.clock.live[v].current == Some(x)
    // new ids are random; each document is inserted once
    case Insert(w, save, id, docs) =>
      && w in s.writers && save.xid == s.writers[w].x
      && save.Created() == {id} && save.Modified() == {} && save.Deleted() == {}
      && id !in s.written && id !in s.disk && docs != {} && docs !! s.inserted.Keys
    // a save appends without the merge lock; somebody who has had it has collected garbage meanwhile
    case LoseInsert(w, docs) => w in s.writers && w in s.exposed && docs != {} && docs !! s.inserted.Keys
    // under any snapshot of the transaction
    case AcquireForMerge(w, v) =>
      && w in s.writers && s.holder == None
      && v in s.clock.live && s.clock.live[v].current == Some(s.writers[w].x) && s.clock.live[v].Sees(s.lastMerge)
    // an input that is not in the list any more is a panic
    case Merge(w, save, id) =>
      && w in s.writers && s.holder == Some(w) && save.xid == s.writers[w].x
      && save.Created() == {id} && save.Modified() == {}
      && save.Deleted() <= s.writers[w].loaded && save.Deleted() != {} && save.Deleted() <= s.disk.Keys
      && id !in s.written && id !in s.disk
    case DropMergeLock(w) => w in s.writers && s.holder == Some(w)
    case CloseWriter(w) => w in s.writers && s.holder != Some(w)
    case Collect(env) => env.Sound() && s.clock.MayRemoveBelow(env.horizon)
    case Finish(x) => x in s.clock.active
  }

  /** The documents of the segments, as often as they are in them. */
  ghost function DocsOf(written: Written, ids: set<SegmentId>): multiset<Doc> {
    if ids == {} then multiset{}
    else
      var id :| id in ids;
      DocsIn(written, id) + DocsOf(written, ids - {id})
  }

  ghost function DocsIn(written: Written, id: SegmentId): multiset<Doc> {
    if id in written then written[id].docs else multiset{}
  }

  /** A merge on what was written: one id is the xmax of the old and the xmin of the new. */
  ghost function Merged(written: Written, ids: set<SegmentId>, x: Xid, id: SegmentId): Written {
    map i | i in written.Keys + {id} ::
      if i == id then Segment(x, INVALID_XID, DocsOf(written, ids))
      else if i in ids then written[i].(xmax := x)
      else written[i]
  }

  /** Documents pass on to the new entry. */
  ghost function MergedLine(written: Written, line: map<Doc, seq<SegmentId>>, ids: set<SegmentId>, id: SegmentId)
    : map<Doc, seq<SegmentId>>
  {
    map d | d in line :: if d in DocsOf(written, ids) then line[d] + [id] else line[d]
  }

  /** The other writers of the transaction are overtaken by a merge of writer `w`. */
  ghost function Overtaking(writers: Writers, w: nat, ids: set<SegmentId>, id: SegmentId): Writers
    requires w in writers
  {
    map u | u in writers ::
      if u == w then writers[u].(loaded := writers[u].loaded - ids + {id})
      else if writers[u].x == writers[w].x then writers[u].(overtaken := true)
      else writers[u]
  }

  /** A writer of another transaction. */
  predicate HasOther(writers: Writers, u: nat, x: Xid) {
    u in writers && writers[u].x != x
  }

  ghost function Apply(s: State, a: Action): State
    requires Enabled(s, a)
  {
    match a
    case Assign(views) => s.(clock := s.clock.Assign(views))
    case TakeSnapshot(v, xmin, current) => s.(clock := s.clock.TakeSnapshot(v, xmin, current))
    case ReleaseSnapshot(v) => s.(clock := s.clock.Release(v))
    case OpenWriter(w, x, v) =>
      s.(writers := s.writers[w := Writer(x, v, s.clock.live[v].snap, VisibleIn(s.disk, s.clock.live[v]), false)],
         exposed := if s.holder.Some? && HasOther(s.writers, s.holder.value, x) then s.exposed + {w}
                    else s.exposed - {w})
    case Insert(w, save, id, docs) =>
      var u := s.writers[w];
      s.(writers := s.writers[w := u.(loaded := u.loaded + {id})],
         disk := save.After(s.disk),
         written := s.written[id := Segment(u.x, INVALID_XID, multiset(docs))],
         inserted := map d | d in s.inserted.Keys + docs :: if d in s.inserted then s.inserted[d] else u.x,
         line := map d | d in s.line.Keys + docs :: if d in s.line then s.line[d] else [id])
    // nobody finds the entry; a merge that had it for an input would panic
    case LoseInsert(w, docs) =>
      s.(inserted := map d | d in s.inserted.Keys + docs :: if d in s.inserted then s.inserted[d] else s.writers[w].x)
    case AcquireForMerge(w, v) =>
      var x := s.writers[w].x;
      s.(lastMerge := x, holder := Some(w),
         exposed := s.exposed + (set u | u in s.writers && HasOther(s.writers, u, x)),
         mergers := s.mergers + {x}, granted := s.granted[x := s.writers[w].snap])
    case Merge(w, save, id) =>
      var ids := save.Deleted();
      s.(writers := Overtaking(s.writers, w, ids, id),
         disk := save.After(s.disk),
         written := Merged(s.written, ids, s.writers[w].x, id),
         line := MergedLine(s.written, s.line, ids, id))
    case DropMergeLock(w) => s.(lastMerge := s.writers[w].x, holder := None)
    case CloseWriter(w) => s.(writers := s.writers - {w})
    case Collect(env) => s.(disk := Collected(s.disk, env), clock := s.clock.RemoveBelow(env.horizon))
    case Finish(x) =>
      s.(clock := s.clock.Finish(x),
         writers := map w | w in s.writers && s.writers[w].x != x :: s.writers[w],
         holder := if s.holder.Some? && s.holder.value in s.writers && s.writers[s.holder.value].x == x
                   then None else s.holder)
  }

  /** The state after the actions, if each could be taken. */
  ghost function Run(actions: seq<Action>): Option<State> {
    if actions == [] then Some(INIT)
    else
      var before := Run(actions[..|actions| - 1]);
      var a := actions[|actions| - 1];
      if before.Some? && Enabled(before.value, a) then Some(Apply(before.value, a)) else None
  }

  /** A merge finds no xmax in any of its inputs when it looks them up. */
  ghost predicate FreshStep(s: State, a: Action) {
    a.Merge? ==> forall i :: i in a.save.Deleted() ==> i in s.disk && s.disk[i].xmax == INVALID_XID
  }

  ghost predicate AllFresh(actions: seq<Action>) {
    actions != [] ==>
      var before := Run(actions[..|actions| - 1]);
      AllFresh(actions[..|actions| - 1]) && (before.Some? ==> FreshStep(before.value, actions[|actions| - 1]))
  }

  /** Every entry inserted is on the list. */
  ghost predicate AllKept(actions: seq<Action>) {
    forall a :: a in actions ==> !a.LoseInsert?
  }

  // ---------------------------------------------------------------------------------------------
  // What every step keeps
  // ---------------------------------------------------------------------------------------------

  ghost predicate Base(s: State) {
    && s.clock.Valid() && Stamps(s.written, s.clock.nextXid) && Known(s.written, s.inserted, s.clock.nextXid)
    && Writing(s.writers, s.clock, s.written) && OnDisk(s.disk, s.written, s.clock.oldest)
  }

  ghost predicate Stamps(written: Written, nextXid: Xid) {
    forall id :: id in written ==>
      && FIRST_NORMAL_XID <= written[id].xmin < nextXid
      && (written[id].xmax == INVALID_XID || FIRST_NORMAL_XID <= written[id].xmax < nextXid)
  }

  ghost predicate Known(written: Written, inserted: map<Doc, Xid>, nextXid: Xid) {
    && (forall d :: d in inserted ==> inserted[d] < nextXid)
    && (forall id :: id in written ==> written[id].docs != multiset{})
    && (forall id, d :: id in written && d in written[id].docs ==> d in inserted)
  }

  ghost predicate Writing(writers: Writers, clock: Clock, written: Written) {
    forall w :: w in writers ==>
      && writers[w].x in clock.active
      && writers[w].holding in clock.live && clock.live[writers[w].holding] == writers[w].AsView()
      && forall id :: id in writers[w].loaded ==> id in written && writers[w].AsView().Sees(written[id].xmin)
  }

  predicate Shows(e: Segment, view: View) {
    view.Shows(e.xmin, e.xmax)
  }

  /** What is left on disk of the entries written. */
  ghost predicate OnDisk(disk: Entries, written: Written, oldest: Xid) {
    && Keyed(disk) && disk.Keys <= written.Keys
    && forall id :: id in written ==>
         if id in disk
         then Faded(written[id].xmin, disk[id].xmin, oldest) && Faded(written[id].xmax, disk[id].xmax, oldest)
         else INVALID_XID != written[id].xmax < oldest
  }

  predicate Faded(was: Xid, now: Xid, oldest: Xid) {
    now == was || (INVALID_XID != was < oldest && now == FROZEN_XID)
  }

  lemma {:induction false} BaseHolds(actions: seq<Action>)
    requires Run(actions).Some?
    ensures Base(Run(actions).value)
  {
    hide Base, Enabled, Apply;
    if actions == [] {
      InitIsBase();
    } else {
      BaseHolds(actions[..|actions| - 1]);
      StepKeepsBase(Run(actions[..|actions| - 1]).value, actions[|actions| - 1]);
    }
  }

  lemma InitIsBase()
    ensures Base(INIT)
  {}

  lemma StepKeepsBase(s: State, a: Action)
    requires Base(s) && Enabled(s, a)
    ensures Base(Apply(s, a))
  {
    hide Base, Enabled, Apply;
    match a
    case Assign(views) => ClockStepKeepsBase(s, a);
    case TakeSnapshot(v, xmin, current) => ClockStepKeepsBase(s, a);
    case ReleaseSnapshot(v) => ClockStepKeepsBase(s, a);
    case Finish(x) => FinishKeepsBase(s, a);
    case OpenWriter(w, x, v) => OpenWriterKeepsBase(s, a);
    case Insert(w, save, id, docs) => InsertKeepsBase(s, a);
    case LoseInsert(w, docs) => LoseInsertKeepsBase(s, a);
    case AcquireForMerge(w, v) => LockStepKeepsBase(s, a);
    case DropMergeLock(w) => LockStepKeepsBase(s, a);
    case CloseWriter(w) => LockStepKeepsBase(s, a);
    case Merge(w, save, id) => MergeKeepsBase(s, a);
    case Collect(env) => CollectKeepsBase(s, a);
  }

  lemma ClockStepKeepsBase(s: State, a: Action)
    requires a.Assign? || a.TakeSnapshot? || a.ReleaseSnapshot?
    requires Base(s) && Enabled(s, a)
    ensures Base(Apply(s, a))
  {
    hide OnDisk, Clock.Valid;
    match a {
      case Assign(views) => AssignKeepsClock(s.clock, views);
      case TakeSnapshot(v, xmin, current) => TakeSnapshotKeepsClock(s.clock, v, xmin, current);
      case ReleaseSnapshot(v) => ReleaseKeepsClock(s.clock, v);
    }
  }

  lemma FinishKeepsBase(s: State, a: Action)
    requires a.Finish? && Base(s) && Enabled(s, a)
    ensures Base(Apply(s, a))
  {
    hide OnDisk, Clock.Valid, Stamps, Known;
    FinishKeepsClock(s.clock, a.x);
  }

  lemma LockStepKeepsBase(s: State, a: Action)
    requires a.AcquireForMerge? || a.DropMergeLock? || a.CloseWriter?
    requires Base(s) && Enabled(s, a)
    ensures Base(Apply(s, a))
  {
    hide OnDisk, Clock.Valid, Stamps, Known;
  }

  lemma OpenWriterKeepsBase(s: State, a: Action)
    requires a.OpenWriter? && Base(s) && Enabled(s, a)
    ensures Base(Apply(s, a))
  {
    hide Clock.Valid, Stamps, Known, SegmentMetaEntry.Visible;
    var view := s.clock.live[a.v];
    LiveIsAbove(s.clock, a.v);
    forall id | id in VisibleIn(s.disk, view) ensures id in s.written && view.Sees(s.written[id].xmin) {
      FadingShowsToNobody(s, view, id);
    }
  }

  lemma DiskIsWritten(s: State)
    requires Base(s)
    ensures s.disk.Keys <= s.written.Keys
  {}

  /** Garbage collection and freezing change what no view in use sees. */
  lemma FadingShowsToNobody(s: State, view: View, id: SegmentId)
    requires Base(s) && view.AtOrAbove(s.clock.oldest) && id in s.written
    ensures (id in s.disk && s.disk[id].Visible(view)) <==> Shows(s.written[id], view)
    ensures (id in s.disk && s.disk[id].xmax == INVALID_XID) <==> s.written[id].xmax == INVALID_XID
  {
    hide Known, Writing;
  }

  lemma CollectKeepsBase(s: State, a: Action)
    requires a.Collect? && Base(s) && Enabled(s, a)
    ensures Base(Apply(s, a))
  {
    hide Stamps, OnDisk, Known, Clock.Valid;
    assert FIRST_NORMAL_XID <= s.clock.oldest by { OldestIsNormal(s.clock); }
    RemoveBelowKeepsClock(s.clock, a.env.horizon);
    CollectedOnDisk(s.disk, s.written, s.clock.oldest, a.env);
  }

  lemma OldestIsNormal(c: Clock)
    requires c.Valid()
    ensures FIRST_NORMAL_XID <= c.oldest
  {}

  lemma CollectedOnDisk(disk: Entries, written: Written, oldest: Xid, env: Env)
    requires OnDisk(disk, written, oldest) && env.Sound() && FIRST_NORMAL_XID <= oldest
    ensures OnDisk(Collected(disk, env), written, if oldest < env.horizon then env.horizon else oldest)
  {
    forall id | id in Collected(disk, env) ensures Collected(disk, env)[id].segmentId == id {
      FrozenKeepsId(disk[id], env.freezeLimit);
    }
  }

  lemma InsertKeepsBase(s: State, a: Action)
    requires a.Insert? && Base(s) && Enabled(s, a)
    ensures Base(Apply(s, a))
  {
    hide OnDisk, Clock.Valid, Stamps, Known, Writing;
    hide Save.After, Save.Created, Save.Modified, Save.Deleted, Save.Acceptable;
    var Insert(w, save, id, docs) := a;
    var x := s.writers[w].x;
    WriterRuns(s, w);
    SaveIsAcceptable(save, s.disk, id);
    InsertedOnDisk(s.disk, s.written, s.clock.oldest, save, id, docs);
    InsertedIsKnown(s.written, s.inserted, s.clock.nextXid, x, id, docs);
    InsertedIsLoaded(s.writers, s.clock, s.written, w, id, Segment(x, INVALID_XID, multiset(docs)));
  }

  lemma LoseInsertKeepsBase(s: State, a: Action)
    requires a.LoseInsert? && Base(s) && Enabled(s, a)
    ensures Base(Apply(s, a))
  {
    hide OnDisk, Clock.Valid, Stamps, Writing;
    WriterRuns(s, a.w);
  }

  lemma WriterRuns(s: State, w: nat)
    requires Base(s) && w in s.writers
    ensures var x := s.writers[w].x; x in s.clock.active && FIRST_NORMAL_XID <= x < s.clock.nextXid
  {}

  lemma InsertedIsKnown(written: Written, inserted: map<Doc, Xid>, nextXid: Xid, x: Xid, id: SegmentId, docs: set<Doc>)
    requires Stamps(written, nextXid) && Known(written, inserted, nextXid) && FIRST_NORMAL_XID <= x < nextXid
    requires docs != {}
    ensures var after := written[id := Segment(x, INVALID_XID, multiset(docs))];
            && Stamps(after, nextXid)
            && Known(after, map d | d in inserted.Keys + docs :: if d in inserted then inserted[d] else x, nextXid)
  {
    var d :| d in docs;
    assert d in multiset(docs);
  }

  /** Writers keep what they have when an entry is added; the one that adds it has it too. */
  lemma InsertedIsLoaded(writers: Writers, clock: Clock, written: Written, w: nat, id: SegmentId, e: Segment)
    requires Writing(writers, clock, written) && w in writers && id !in written && e.xmin == writers[w].x
    ensures Writing(writers[w := writers[w].(loaded := writers[w].loaded + {id})], clock, written[id := e])
  {}

  lemma SaveIsAcceptable(save: Save, disk: Entries, id: SegmentId)
    requires save.Created() == {id} && save.Modified() == {} && save.Deleted() <= disk.Keys && id !in disk
    ensures save.Acceptable(disk)
  {}

  lemma InsertedOnDisk(disk: Entries, written: Written, oldest: Xid, save: Save, id: SegmentId, docs: set<Doc>)
    requires OnDisk(disk, written, oldest) && save.Acceptable(disk)
    requires save.Created() == {id} && save.Modified() == {} && save.Deleted() == {}
    requires id !in written
    ensures OnDisk(save.After(disk), written[id := Segment(save.xid, INVALID_XID, multiset(docs))], oldest)
  {
    hide CreatedEntry, ModifiedEntry, Ids, ById;
    assert id in save.Created();
  }

  lemma MergeKeepsBase(s: State, a: Action)
    requires a.Merge? && Base(s) && Enabled(s, a)
    ensures Base(Apply(s, a))
  {
    hide OnDisk, Clock.Valid, Stamps, Known, Writing, Merged, Overtaking;
    hide Save.After, Save.Created, Save.Modified, Save.Deleted, Save.Acceptable;
    var Merge(w, save, id) := a;
    WriterRuns(s, w);
    LoadedIsWritten(s, w);
    SaveIsAcceptable(save, s.disk, id);
    MergedOnDisk(s.disk, s.written, s.clock.oldest, save, id);
    MergedIsKnown(s.written, s.inserted, s.clock.nextXid, save.Deleted(), s.writers[w].x, id);
    MergedIsLoaded(s.writers, s.clock, s.written, w, save.Deleted(), id);
  }

  lemma LoadedIsWritten(s: State, w: nat)
    requires Base(s) && w in s.writers
    ensures s.writers[w].loaded <= s.written.Keys
  {}

  lemma MergedIsKnown(written: Written, inserted: map<Doc, Xid>, nextXid: Xid, ids: set<SegmentId>, x: Xid,
                      id: SegmentId)
    requires Stamps(written, nextXid) && Known(written, inserted, nextXid) && FIRST_NORMAL_XID <= x < nextXid
    requires ids <= written.Keys && ids != {}
    ensures Stamps(Merged(written, ids, x, id), nextXid) && Known(Merged(written, ids, x, id), inserted, nextXid)
  {
    hide DocsOf;
    MergedHasDocs(written, ids);
    forall d | d in DocsOf(written, ids) ensures d in inserted {
      var e := DocIsInOne(written, ids, d);
    }
  }

  lemma MergedIsLoaded(writers: Writers, clock: Clock, written: Written, w: nat, ids: set<SegmentId>, id: SegmentId)
    requires Writing(writers, clock, written) && w in writers && id !in written
    ensures Writing(Overtaking(writers, w, ids, id), clock, Merged(written, ids, writers[w].x, id))
  {
    hide DocsOf;
  }

  lemma MergedOnDisk(disk: Entries, written: Written, oldest: Xid, save: Save, id: SegmentId)
    requires OnDisk(disk, written, oldest) && save.Acceptable(disk)
    requires save.Created() == {id} && save.Modified() == {} && save.Deleted() <= disk.Keys && id !in written
    ensures OnDisk(save.After(disk), Merged(written, save.Deleted(), save.xid, id), oldest)
  {
    hide CreatedEntry, ModifiedEntry, Ids, ById, DocsOf;
    assert id in save.Created();
  }

  lemma {:induction false} DocsSplit(written: Written, ids: set<SegmentId>, e: SegmentId)
    requires e in ids
    ensures DocsOf(written, ids) == DocsIn(written, e) + DocsOf(written, ids - {e})
    decreases |ids|
  {
    var id :| id in ids && DocsOf(written, ids) == DocsIn(written, id) + DocsOf(written, ids - {id});
    if id != e {
      DocsSplit(written, ids - {id}, e);
      DocsSplit(written, ids - {e}, id);
      assert ids - {id} - {e} == ids - {e} - {id};
    }
  }

  lemma {:induction false} DocIsInOne(written: Written, ids: set<SegmentId>, d: Doc) returns (e: SegmentId)
    requires d in DocsOf(written, ids)
    ensures e in ids && e in written && d in written[e].docs
    decreases |ids|
  {
    var id :| id in ids && DocsOf(written, ids) == DocsIn(written, id) + DocsOf(written, ids - {id});
    if d in DocsIn(written, id) {
      e := id;
    } else {
      e := DocIsInOne(written, ids - {id}, d);
    }
  }

  lemma MergedHasDocs(written: Written, ids: set<SegmentId>)
    requires forall id :: id in ids ==> id in written && written[id].docs != multiset{}
    ensures ids != {} ==> DocsOf(written, ids) != multiset{}
  {
    if ids != {} {
      var id :| id in ids;
      DocsSplit(written, ids, id);
      var d :| d in written[id].docs;
      assert d in DocsOf(written, ids);
    }
  }

  // ---------------------------------------------------------------------------------------------
  // While all merges are fresh
  // ---------------------------------------------------------------------------------------------

  ghost predicate FreshInv(s: State) {
    && Base(s) && Edges(s.written, s.clock.active, s.clock.live) && Lines(s.written, s.line)
    && Starts(s.written, s.line, s.inserted)
  }

  /** Who merges an entry is its inserter or came after; so does everyone who sees the merge finished. */
  ghost predicate Edges(written: Written, active: set<Xid>, live: map<nat, View>) {
    && (forall id :: id in written && written[id].xmax != INVALID_XID ==>
          written[id].xmin == written[id].xmax || written[id].xmin !in active)
    && (forall v :: v in live ==> SeesEdges(written, live[v]))
  }

  ghost predicate SeesEdges(written: Written, view: View) {
    forall id :: id in written && SeesMerge(written[id], view) ==> view.Sees(written[id].xmin)
  }

  /** Merged, by someone else, and the view sees that. */
  predicate SeesMerge(e: Segment, view: View) {
    e.xmax != INVALID_XID && !view.IsCurrent(e.xmax) && view.Sees(e.xmax)
  }

  /** The entries that hold a document, in the order it passed through them by merging. */
  ghost predicate Lines(written: Written, line: map<Doc, seq<SegmentId>>) {
    (forall d :: d in line ==> Line(written, d, line[d])) && AllListed(written, line)
  }

  ghost predicate AllListed(written: Written, line: map<Doc, seq<SegmentId>>) {
    forall id, d :: id in written && d in written[id].docs ==> d in line && id in line[d]
  }

  ghost predicate Line(written: Written, d: Doc, ids: seq<SegmentId>) {
    && ids != []
    && (forall i :: 0 <= i < |ids| ==> ids[i] in written && written[ids[i]].docs[d] == 1)
    && (forall i, j :: 0 <= i < j < |ids| ==> ids[i] != ids[j])
    && (forall i :: 0 <= i < |ids| ==> written[ids[i]].xmax == NextXmin(written, ids, i))
  }

  ghost function NextXmin(written: Written, ids: seq<SegmentId>, i: nat): Xid
    requires i < |ids| && forall i :: 0 <= i < |ids| ==> ids[i] in written
  {
    if i + 1 < |ids| then written[ids[i + 1]].xmin else INVALID_XID
  }

  ghost predicate Starts(written: Written, line: map<Doc, seq<SegmentId>>, inserted: map<Doc, Xid>) {
    && line.Keys <= inserted.Keys
    && forall d :: d in line ==> line[d] != [] && line[d][0] in written && written[line[d][0]].xmin == inserted[d]
  }

  lemma {:induction false} FreshHolds(actions: seq<Action>)
    requires Run(actions).Some? && AllFresh(actions)
    ensures FreshInv(Run(actions).value)
  {
    hide FreshInv, Enabled, Apply, FreshStep;
    if actions == [] {
      InitIsFresh();
    } else {
      FreshHolds(actions[..|actions| - 1]);
      StepKeepsFresh(Run(actions[..|actions| - 1]).value, actions[|actions| - 1]);
    }
  }

  lemma InitIsFresh()
    ensures FreshInv(INIT)
  {}

  lemma StepKeepsFresh(s: State, a: Action)
    requires FreshInv(s) && Enabled(s, a) && FreshStep(s, a)
    ensures FreshInv(Apply(s, a))
  {
    hide Base, Enabled, Apply, Lines, Edges, Starts, FreshStep;
    StepKeepsBase(s, a);
    match a
    case Assign(views) => ClockStepKeepsFresh(s, a);
    case TakeSnapshot(v, xmin, current) => ClockStepKeepsFresh(s, a);
    case ReleaseSnapshot(v) => ClockStepKeepsFresh(s, a);
    case Finish(x) => ClockStepKeepsFresh(s, a);
    case OpenWriter(w, x, v) => OtherStepKeepsFresh(s, a);
    case Insert(w, save, id, docs) => InsertKeepsFresh(s, a);
    case LoseInsert(w, docs) => LoseInsertKeepsFresh(s, a);
    case AcquireForMerge(w, v) => OtherStepKeepsFresh(s, a);
    case DropMergeLock(w) => OtherStepKeepsFresh(s, a);
    case CloseWriter(w) => OtherStepKeepsFresh(s, a);
    case Merge(w, save, id) => MergeKeepsFresh(s, a);
    case Collect(env) => OtherStepKeepsFresh(s, a);
  }

  lemma OtherStepKeepsFresh(s: State, a: Action)
    requires a.OpenWriter? || a.AcquireForMerge? || a.DropMergeLock? || a.CloseWriter? || a.Collect?
    requires FreshInv(s) && Enabled(s, a) && Base(Apply(s, a))
    ensures FreshInv(Apply(s, a))
  {
    hide Base, Lines, Edges, Starts;
  }

  lemma ClockStepKeepsFresh(s: State, a: Action)
    requires a.Assign? || a.TakeSnapshot? || a.ReleaseSnapshot? || a.Finish?
    requires FreshInv(s) && Enabled(s, a) && Base(Apply(s, a))
    ensures FreshInv(Apply(s, a))
  {
    hide Lines, Starts, OnDisk, Known, Writing, SeesEdges;
    match a {
      case Assign(views) => AssignKeepsEdges(s, views);
      case TakeSnapshot(v, xmin, current) => NewSnapshotSeesEdges(s, v, xmin, current);
      case ReleaseSnapshot(v) =>
      case Finish(x) =>
    }
  }

  lemma AssignKeepsEdges(s: State, views: set<nat>)
    requires FreshInv(s) && s.clock.CanAssign(views)
    ensures forall v :: v in s.clock.live ==> SeesEdges(s.written, s.clock.Assign(views).live[v])
  {
    hide Lines, Starts, OnDisk, Known, Writing, Clock.Valid;
    AssignKeepsClock(s.clock, views);
    forall v | v in s.clock.live ensures SeesEdges(s.written, s.clock.Assign(views).live[v]) {
      assert SeesEdges(s.written, s.clock.live[v]);
    }
  }

  lemma NewSnapshotSeesEdges(s: State, v: nat, xmin: Xid, current: Option<Xid>)
    requires FreshInv(s) && s.clock.CanTakeSnapshot(v, xmin, current)
    ensures SeesEdges(s.written, s.clock.TakeSnapshot(v, xmin, current).live[v])
  {
    hide Lines, Starts, OnDisk, Known, Writing, SeesEdges, Clock.Valid;
    var view := s.clock.TakeSnapshot(v, xmin, current).live[v];
    TakeSnapshotKeepsClock(s.clock, v, xmin, current);
    forall id | id in s.written && SeesMerge(s.written[id], view)
      ensures view.Sees(s.written[id].xmin)
    {
      RunningIsUnseen(s.clock.TakeSnapshot(v, xmin, current), v);
    }
    SeesEdgesIf(s.written, view);
  }

  lemma SeesEdgesIf(written: Written, view: View)
    requires forall id :: id in written && SeesMerge(written[id], view) ==> view.Sees(written[id].xmin)
    ensures SeesEdges(written, view)
  {}

  lemma InsertKeepsFresh(s: State, a: Action)
    requires a.Insert? && FreshInv(s) && Enabled(s, a) && Base(Apply(s, a))
    ensures FreshInv(Apply(s, a))
  {
    hide Base, Lines, Starts, Save.After, Save.Created, Save.Modified, Save.Deleted, Save.Acceptable;
    InsertedLines(s.written, s.line, s.inserted, s.writers[a.w].x, a.id, a.docs);
  }

  lemma LoseInsertKeepsFresh(s: State, a: Action)
    requires a.LoseInsert? && FreshInv(s) && Enabled(s, a) && Base(Apply(s, a))
    ensures FreshInv(Apply(s, a))
  {
    hide Base, Lines, Edges;
  }

  lemma InsertedLines(written: Written, line: map<Doc, seq<SegmentId>>, inserted: map<Doc, Xid>, x: Xid,
                      id: SegmentId, docs: set<Doc>)
    requires Lines(written, line) && Starts(written, line, inserted) && id !in written && docs !! inserted.Keys
    ensures var after := written[id := Segment(x, INVALID_XID, multiset(docs))];
            var line' := map d | d in line.Keys + docs :: if d in line then line[d] else [id];
            && Lines(after, line')
            && Starts(after, line', map d | d in inserted.Keys + docs :: if d in inserted then inserted[d] else x)
  {
    hide Line, AllListed;
    var after := written[id := Segment(x, INVALID_XID, multiset(docs))];
    var line' := map d | d in line.Keys + docs :: if d in line then line[d] else [id];
    forall d | d in line' ensures Line(after, d, line'[d]) {
      if d in line {
        LineOf(written, d, line[d]);
        LineKept(written, after, d, line[d]);
      } else {
        LineOfOne(after, d, id);
      }
    }
    InsertedListed(written, line, x, id, docs);
  }

  lemma InsertedListed(written: Written, line: map<Doc, seq<SegmentId>>, x: Xid, id: SegmentId, docs: set<Doc>)
    requires AllListed(written, line) && id !in written && docs !! line.Keys
    ensures AllListed(written[id := Segment(x, INVALID_XID, multiset(docs))],
                      map d | d in line.Keys + docs :: if d in line then line[d] else [id])
  {}

  lemma LineOf(written: Written, d: Doc, ids: seq<SegmentId>)
    requires Line(written, d, ids)
    ensures forall i :: 0 <= i < |ids| ==> ids[i] in written && written[ids[i]].docs[d] == 1
  {}

  lemma LineOfOne(written: Written, d: Doc, id: SegmentId)
    requires id in written && written[id].xmax == INVALID_XID && written[id].docs[d] == 1
    ensures Line(written, d, [id])
  {}

  lemma LineKept(before: Written, after: Written, d: Doc, ids: seq<SegmentId>)
    requires Line(before, d, ids)
    requires forall i :: 0 <= i < |ids| ==> ids[i] in after && after[ids[i]] == before[ids[i]]
    ensures Line(after, d, ids)
  {
    hide NextXmin;
    forall i | 0 <= i < |ids| ensures NextXmin(after, ids, i) == NextXmin(before, ids, i) {
      NextIs(before, ids, i);
      NextIs(after, ids, i);
    }
  }

  lemma NextIs(written: Written, ids: seq<SegmentId>, i: nat)
    requires i < |ids| && forall i :: 0 <= i < |ids| ==> ids[i] in written
    ensures NextXmin(written, ids, i) == if i + 1 < |ids| then written[ids[i + 1]].xmin else INVALID_XID
  {}

  /** Only the last entry of a line is not merged. */
  lemma LineEnds(written: Written, d: Doc, ids: seq<SegmentId>, i: nat)
    requires Line(written, d, ids) && i < |ids|
    requires forall id :: id in written ==> written[id].xmin != INVALID_XID
    ensures ids[i] in written && (written[ids[i]].xmax == INVALID_XID <==> i == |ids| - 1)
  {
    hide NextXmin;
    NextIs(written, ids, i);
  }

  lemma LineGrows(before: Written, after: Written, d: Doc, ids: seq<SegmentId>, x: Xid, id: SegmentId)
    requires Line(before, d, ids) && id !in before && id in after
    requires forall i :: 0 <= i < |ids| - 1 ==> ids[i] in after && after[ids[i]] == before[ids[i]]
    requires var last := ids[|ids| - 1]; last in after && after[last] == before[last].(xmax := x)
    requires after[id].xmin == x && after[id].xmax == INVALID_XID && after[id].docs[d] == 1
    ensures Line(after, d, ids + [id])
  {
    hide NextXmin;
    var grown := ids + [id];
    forall i | 0 <= i < |grown|
      ensures grown[i] in after && after[grown[i]].docs[d] == 1 && after[grown[i]].xmax == NextXmin(after, grown, i)
    {
      if i < |ids| {
        NextIs(before, ids, i);
      }
      NextIs(after, grown, i);
    }
  }

  lemma MergeKeepsFresh(s: State, a: Action)
    requires a.Merge? && FreshInv(s) && Enabled(s, a) && FreshStep(s, a) && Base(Apply(s, a))
    ensures FreshInv(Apply(s, a))
  {
    hide Lines, Starts, Edges, Merged, MergedLine, Overtaking, DocsOf, Known, Clock.Valid, Writing, OnDisk;
    hide Save.After, Save.Created, Save.Modified, Save.Deleted, Save.Acceptable;
    var Merge(w, save, id) := a;
    FreshIsUnmerged(s, a);
    LoadedIsWritten(s, w);
    MergedLines(s.written, s.line, s.inserted, save.Deleted(), s.writers[w].x, id);
    MergedEdges(s, w, save.Deleted(), id);
  }

  lemma FreshIsUnmerged(s: State, a: Action)
    requires a.Merge? && Base(s) && Enabled(s, a)
    ensures FreshStep(s, a) <==>
            forall i :: i in a.save.Deleted() ==> i in s.written && s.written[i].xmax == INVALID_XID
  {
    hide Known, Writing, Save.Created, Save.Modified, Save.Deleted;
  }

  lemma MergedEdges(s: State, w: nat, ids: set<SegmentId>, id: SegmentId)
    requires FreshInv(s) && w in s.writers && ids <= s.writers[w].loaded && id !in s.written
    ensures Edges(Merged(s.written, ids, s.writers[w].x, id), s.clock.active, s.clock.live)
  {
    hide Lines, Starts, Known, OnDisk, DocsOf, Stamps;
    var x := s.writers[w].x;
    RunningIsUnseen(s.clock, s.writers[w].holding);
    forall v | v in s.clock.live ensures SeesEdges(Merged(s.written, ids, x, id), s.clock.live[v]) {
      RunningIsUnseen(s.clock, v);
      assert SeesEdges(s.written, s.clock.live[v]);
    }
  }

  lemma MergedLines(written: Written, line: map<Doc, seq<SegmentId>>, inserted: map<Doc, Xid>,
                    ids: set<SegmentId>, x: Xid, id: SegmentId)
    requires Lines(written, line) && Starts(written, line, inserted) && id !in written
    requires forall i :: i in ids ==> i in written && written[i].xmax == INVALID_XID
    requires forall i :: i in written ==> written[i].xmin != INVALID_XID
    ensures Lines(Merged(written, ids, x, id), MergedLine(written, line, ids, id))
    ensures Starts(Merged(written, ids, x, id), MergedLine(written, line, ids, id), inserted)
  {
    hide Line, DocsOf, Merged, AllListed, Starts;
    forall d | d in line
      ensures Line(Merged(written, ids, x, id), d, MergedLine(written, line, ids, id)[d])
    {
      MergedOneLine(written, line, ids, x, id, d);
    }
    MergedListed(written, line, ids, x, id);
    MergedStarts(written, line, inserted, ids, x, id);
  }

  lemma MergedStarts(written: Written, line: map<Doc, seq<SegmentId>>, inserted: map<Doc, Xid>,
                     ids: set<SegmentId>, x: Xid, id: SegmentId)
    requires Starts(written, line, inserted) && id !in written
    ensures Starts(Merged(written, ids, x, id), MergedLine(written, line, ids, id), inserted)
  {
    hide DocsOf;
  }

  lemma MergedListed(written: Written, line: map<Doc, seq<SegmentId>>, ids: set<SegmentId>, x: Xid, id: SegmentId)
    requires AllListed(written, line) && id !in written
    ensures AllListed(Merged(written, ids, x, id), MergedLine(written, line, ids, id))
  {
    hide DocsOf;
    var after, line' := Merged(written, ids, x, id), MergedLine(written, line, ids, id);
    forall i, d | i in after && d in after[i].docs ensures d in line' && i in line'[d] {
      if i == id {
        var e := DocIsInOne(written, ids, d);
      }
    }
  }

  lemma MergedOneLine(written: Written, line: map<Doc, seq<SegmentId>>, ids: set<SegmentId>, x: Xid,
                      id: SegmentId, d: Doc)
    requires Lines(written, line) && id !in written && d in line
    requires forall i :: i in ids ==> i in written && written[i].xmax == INVALID_XID
    requires forall i :: i in written ==> written[i].xmin != INVALID_XID
    ensures Line(Merged(written, ids, x, id), d, MergedLine(written, line, ids, id)[d])
  {
    hide Line, DocsOf, AllListed;
    var after := Merged(written, ids, x, id);
    LineOf(written, d, line[d]);
    forall i | 0 <= i < |line[d]| ensures line[d][i] in ids ==> i == |line[d]| - 1 {
      LineEnds(written, d, line[d], i);
    }
    if d in DocsOf(written, ids) {
      var e := OnceInInputs(written, line, ids, d);
      LineGrows(written, after, d, line[d], x, id);
    } else {
      forall i | 0 <= i < |line[d]| ensures line[d][i] !in ids {
        if line[d][i] in ids {
          DocsSplit(written, ids, line[d][i]);
        }
      }
      LineKept(written, after, d, line[d]);
    }
  }

  /** Unmerged inputs hold a document at most once, all together. */
  lemma OnceInInputs(written: Written, line: map<Doc, seq<SegmentId>>, ids: set<SegmentId>, d: Doc)
    returns (e: SegmentId)
    requires Lines(written, line) && d in DocsOf(written, ids)
    requires forall i :: i in ids ==> i in written && written[i].xmax == INVALID_XID
    requires forall i :: i in written ==> written[i].xmin != INVALID_XID
    ensures d in line && e in ids && e == line[d][|line[d]| - 1] && DocsOf(written, ids)[d] == 1
  {
    hide DocsOf, Line;
    e := DocIsInOne(written, ids, d);
    LineOf(written, d, line[d]);
    IsLast(written, line, e, d);
    DocsSplit(written, ids, e);
    if d in DocsOf(written, ids - {e}) {
      var f := DocIsInOne(written, ids - {e}, d);
      IsLast(written, line, f, d);
    }
  }

  lemma IsLast(written: Written, line: map<Doc, seq<SegmentId>>, e: SegmentId, d: Doc)
    requires Lines(written, line) && e in written && written[e].xmax == INVALID_XID && d in written[e].docs
    requires forall i :: i in written ==> written[i].xmin != INVALID_XID
    ensures d in line && line[d] != [] && e == line[d][|line[d]| - 1] && written[e].docs[d] == 1
  {
    hide NextXmin;
    var i :| 0 <= i < |line[d]| && line[d][i] == e;
    LineEnds(written, d, line[d], i);
  }

  // ---------------------------------------------------------------------------------------------
  // Every document once, while all merges are fresh
  // ---------------------------------------------------------------------------------------------

  /** The visible segments that hold the document. */
  ghost function Holders(s: State, d: Doc, view: View): set<SegmentId> {
    set id | id in s.disk && s.disk[id].Visible(view) && id in s.written && d in s.written[id].docs
  }

  /** In one visible segment, and once in that, if its inserter is seen; in none otherwise. */
  ghost predicate Once(s: State, d: Doc, view: View, seen: bool) {
    if seen then exists id :: id in s.written && Holders(s, d, view) == {id} && s.written[id].docs[d] == 1
    else Holders(s, d, view) == {}
  }

  ghost predicate EveryDocOnce(s: State, view: View) {
    forall d :: d in s.inserted ==> Once(s, d, view, view.Sees(s.inserted[d]))
  }

  /** So of the documents whose entries are on the list, each in a line of merges. */
  ghost predicate EveryKeptOnce(s: State, view: View) {
    forall d :: d in s.line && d in s.inserted ==> Once(s, d, view, view.Sees(s.inserted[d]))
  }

  /** Whatever the view's own transaction has merged away, the view sees inserted. */
  ghost predicate SeesOwnMerges(s: State, view: View) {
    forall id :: id in s.written && view.IsCurrent(s.written[id].xmax) ==> view.Sees(s.written[id].xmin)
  }

  ghost predicate Proper(s: State, view: View) {
    view.AtOrAbove(s.clock.oldest) && SeesEdges(s.written, view)
  }

  /** What a snapshot will see once all the transactions have finished. */
  ghost function Everyone(s: State): View {
    View(Snapshot(s.clock.nextXid, s.clock.nextXid, {}), None)
  }

  lemma LiveIsProper(s: State, v: nat)
    requires FreshInv(s) && v in s.clock.live
    ensures Proper(s, s.clock.live[v])
  {
    hide OnDisk, Lines, Starts, Known, Writing;
    LiveIsAbove(s.clock, v);
  }

  lemma EveryoneIsAbove(s: State)
    requires Base(s)
    ensures Everyone(s).AtOrAbove(s.clock.oldest)
  {}

  lemma EveryoneIsProper(s: State)
    requires Base(s)
    ensures Proper(s, Everyone(s)) && SeesOwnMerges(s, Everyone(s))
  {}

  /** The `i`-th entry of a line shows if its own id is seen and the next one is not. */
  lemma ShowsOnLine(s: State, view: View, d: Doc, i: nat)
    requires FreshInv(s) && Proper(s, view) && d in s.line && i < |s.line[d]|
    ensures s.line[d][i] in s.written && s.written[s.line[d][i]].docs[d] == 1
    ensures s.line[d][i] in Holders(s, d, view) <==>
            && SeesAt(s, view, s.line[d], i)
            && (i + 1 < |s.line[d]| ==> !SeesAt(s, view, s.line[d], i + 1))
  {
    hide Edges, OnDisk, Known, Writing, Clock.Valid, NextXmin, SegmentMetaEntry.Visible;
    assert Line(s.written, d, s.line[d]);
    FadingShowsToNobody(s, view, s.line[d][i]);
    NextIs(s.written, s.line[d], i);
  }

  lemma HoldersAreOnLine(s: State, d: Doc, view: View, id: SegmentId)
    requires FreshInv(s) && d in s.line && id in Holders(s, d, view)
    ensures id in s.line[d]
  {}

  ghost predicate SeesAt(s: State, view: View, ids: seq<SegmentId>, i: nat)
    requires i < |ids|
  {
    ids[i] in s.written && view.Sees(s.written[ids[i]].xmin)
  }

  /** From an entry whose id is seen on, some entry of the line shows. */
  lemma SomeShows(s: State, view: View, d: Doc, from: nat) returns (i: nat)
    requires FreshInv(s) && Proper(s, view) && d in s.line && from < |s.line[d]|
    requires SeesAt(s, view, s.line[d], from)
    ensures from <= i < |s.line[d]|
    ensures s.line[d][i] in Holders(s, d, view)
    ensures forall j :: from <= j <= i ==> SeesAt(s, view, s.line[d], j)
    ensures i + 1 < |s.line[d]| ==> !SeesAt(s, view, s.line[d], i + 1)
  {
    hide FreshInv, Holders, Proper;
    i := from;
    while i + 1 < |s.line[d]| && SeesAt(s, view, s.line[d], i + 1)
      invariant i < |s.line[d]| && from <= i
      invariant forall j :: from <= j <= i ==> SeesAt(s, view, s.line[d], j)
      decreases |s.line[d]| - i
    {
      i := i + 1;
    }
    assert SeesAt(s, view, s.line[d], i);
    ShowsOnLine(s, view, d, i);
  }

  /** Where a view sees the merges it should, ids are seen down a line until one is not, and none after it. */
  lemma SeenDown(s: State, view: View, d: Doc, i: nat)
    requires FreshInv(s) && Proper(s, view) && d in s.line && i + 1 < |s.line[d]|
    requires SeesOwnMerges(s, view) && SeesAt(s, view, s.line[d], i + 1)
    ensures SeesAt(s, view, s.line[d], i)
  {
    hide OnDisk, Known, Writing, Clock.Valid, NextXmin;
    assert Line(s.written, d, s.line[d]);
    NextIs(s.written, s.line[d], i);
  }

  lemma {:induction false} UnseenDown(s: State, view: View, d: Doc, i: nat, j: nat)
    requires FreshInv(s) && Proper(s, view) && d in s.line && i <= j < |s.line[d]|
    requires SeesOwnMerges(s, view) && !SeesAt(s, view, s.line[d], i)
    ensures !SeesAt(s, view, s.line[d], j)
  {
    hide FreshInv, Proper;
    if i < j {
      UnseenDown(s, view, d, i, j - 1);
      if SeesAt(s, view, s.line[d], j) {
        SeenDown(s, view, d, j - 1);
      }
    }
  }

  lemma FirstOfLine(s: State, d: Doc)
    requires FreshInv(s) && d in s.line && d in s.inserted
    ensures d in s.line && s.line[d] != [] && s.line[d][0] in s.written
    ensures s.inserted[d] == s.written[s.line[d][0]].xmin
  {}

  lemma DocOnce(s: State, view: View, d: Doc)
    requires FreshInv(s) && Proper(s, view) && d in s.line && d in s.inserted && SeesOwnMerges(s, view)
    ensures Once(s, d, view, view.Sees(s.inserted[d]))
  {
    hide FreshInv, Holders, SeesOwnMerges, Proper;
    FirstOfLine(s, d);
    var ids, holders := s.line[d], Holders(s, d, view);
    ghost var last := -1;
    if SeesAt(s, view, ids, 0) {
      last := SomeShows(s, view, d, 0);
    }
    forall id | id in holders ensures last != -1 && id == ids[last] {
      HoldersAreOnLine(s, d, view, id);
      var i :| 0 <= i < |ids| && ids[i] == id;
      ShowsOnLine(s, view, d, i);
      if i > last {
        UnseenDown(s, view, d, last + 1, i);
      }
    }
    if last != -1 {
      assert holders == {ids[last]};
      ShowsOnLine(s, view, d, last);
    } else {
      assert holders == {};
    }
  }

  /** An own merge the view does not see inserted shows some document twice, or one not inserted yet. */
  lemma OwnMergeShows(s: State, view: View, id: SegmentId) returns (d: Doc)
    requires FreshInv(s) && Proper(s, view) && id in s.written
    requires view.IsCurrent(s.written[id].xmax) && view.current.value != INVALID_XID
    requires !view.Sees(s.written[id].xmin)
    ensures d in s.inserted && d in s.line && !Once(s, d, view, view.Sees(s.inserted[d]))
  {
    hide FreshInv, Holders, Proper;
    var i;
    d, i := SomeDocOf(s, view, id);
    FirstOfLine(s, d);
    var ids := s.line[d];
    var later := SomeShows(s, view, d, i + 1);
    if SeesAt(s, view, ids, 0) {
      var earlier := SomeShows(s, view, d, 0);
      assert !SeesAt(s, view, ids, i);
      DifferentOnLine(s, d, earlier, later);
    }
  }

  lemma SomeDocOf(s: State, view: View, id: SegmentId) returns (d: Doc, i: nat)
    requires FreshInv(s) && id in s.written && view.IsCurrent(s.written[id].xmax)
    requires view.current.value != INVALID_XID
    ensures d in s.inserted && d in s.line && i + 1 < |s.line[d]| && s.line[d][i] == id
    ensures SeesAt(s, view, s.line[d], i + 1)
  {
    hide Edges, OnDisk, Writing, NextXmin, Clock.Valid;
    d :| d in s.written[id].docs;
    assert Line(s.written, d, s.line[d]);
    i :| 0 <= i < |s.line[d]| && s.line[d][i] == id;
    NextIs(s.written, s.line[d], i);
  }

  lemma DifferentOnLine(s: State, d: Doc, i: nat, j: nat)
    requires FreshInv(s) && d in s.line && i < |s.line[d]| && j < |s.line[d]| && i != j
    ensures s.line[d][i] != s.line[d][j]
  {
    hide Edges, OnDisk, Writing, NextXmin, Known;
    assert Line(s.written, d, s.line[d]);
  }

  /** With fresh merges: a view sees every document that is not lost once exactly when it sees its own merges'
      inputs. */
  lemma FreshOnceIff(s: State, view: View)
    requires FreshInv(s) && Proper(s, view) && view.current != Some(INVALID_XID)
    ensures EveryKeptOnce(s, view) <==> SeesOwnMerges(s, view)
  {
    hide FreshInv, Once, Holders, Proper;
    if SeesOwnMerges(s, view) {
      forall d | d in s.line && d in s.inserted ensures Once(s, d, view, view.Sees(s.inserted[d])) {
        DocOnce(s, view, d);
      }
    } else {
      var id :| id in s.written && view.IsCurrent(s.written[id].xmax) && !view.Sees(s.written[id].xmin);
      var d := OwnMergeShows(s, view, id);
    }
  }

  // ---------------------------------------------------------------------------------------------
  // A merge that is not fresh is never made good
  // ---------------------------------------------------------------------------------------------

  /** In the entries nobody has merged, the document is twice. */
  ghost predicate Doubled(written: Written, d: Doc) {
    || (exists a, b :: a != b && HasUnmerged(written, a, d) && HasUnmerged(written, b, d))
    || (exists a :: HasUnmerged(written, a, d) && written[a].docs[d] > 1)
  }

  predicate HasUnmerged(written: Written, id: SegmentId, d: Doc) {
    id in written && written[id].xmax == INVALID_XID && d in written[id].docs
  }

  lemma DoubledIsSeen(s: State, d: Doc)
    requires Base(s) && Doubled(s.written, d)
    ensures d in s.inserted && !Once(s, d, Everyone(s), Everyone(s).Sees(s.inserted[d]))
  {
    hide OnDisk, Writing, SegmentMetaEntry.Visible, Clock.Valid;
    EveryoneIsAbove(s);
    forall id | id in s.written ensures id in Holders(s, d, Everyone(s)) <==> HasUnmerged(s.written, id, d) {
      FadingShowsToNobody(s, Everyone(s), id);
    }
  }

  lemma DoubledStays(s: State, a: Action, d: Doc)
    requires Base(s) && Enabled(s, a) && Doubled(s.written, d)
    ensures Doubled(Apply(s, a).written, d)
  {
    hide Base, Save.After, Save.Created, Save.Modified, Save.Deleted, Save.Acceptable, Merged, MergedLine, Overtaking;
    match a
    case Insert(w, save, id, docs) =>
      InsertKeepsDoubled(s.written, id, Segment(s.writers[w].x, INVALID_XID, multiset(docs)), d);
    case Merge(w, save, id) => MergeKeepsDoubled(s.written, save.Deleted(), s.writers[w].x, id, d);
    case _ =>
  }

  lemma InsertKeepsDoubled(written: Written, id: SegmentId, e: Segment, d: Doc)
    requires id !in written && Doubled(written, d)
    ensures Doubled(written[id := e], d)
  {
    forall i | HasUnmerged(written, i, d) ensures HasUnmerged(written[id := e], i, d) {}
  }

  lemma MergeKeepsDoubled(written: Written, ids: set<SegmentId>, x: Xid, id: SegmentId, d: Doc)
    requires id !in written && Doubled(written, d)
    ensures Doubled(Merged(written, ids, x, id), d)
  {
    hide DocsOf;
    if a, b :| a != b && HasUnmerged(written, a, d) && HasUnmerged(written, b, d) {
      TwoAfterMerge(written, ids, x, id, d, a, b);
    } else {
      var a :| HasUnmerged(written, a, d) && written[a].docs[d] > 1;
      var after := Merged(written, ids, x, id);
      if a in ids {
        DocsSplit(written, ids, a);
        assert HasUnmerged(after, id, d) && after[id].docs[d] > 1;
      } else {
        assert HasUnmerged(after, a, d) && after[a].docs[d] > 1;
      }
    }
  }

  /** Wherever the two of them go. */
  lemma TwoAfterMerge(written: Written, ids: set<SegmentId>, x: Xid, id: SegmentId, d: Doc, a: SegmentId, b: SegmentId)
    requires id !in written && a != b && a in written && b in written
    requires d in written[a].docs && d in written[b].docs
    requires a in ids || written[a].xmax == INVALID_XID
    requires b in ids || written[b].xmax == INVALID_XID
    ensures Doubled(Merged(written, ids, x, id), d)
  {
    hide DocsOf;
    var after := Merged(written, ids, x, id);
    if a in ids {
      DocsSplit(written, ids, a);
      if b in ids {
        DocsSplit(written, ids - {a}, b);
        assert HasUnmerged(after, id, d) && after[id].docs[d] > 1;
      } else {
        assert HasUnmerged(after, id, d) && HasUnmerged(after, b, d);
      }
    } else if b in ids {
      DocsSplit(written, ids, b);
      assert HasUnmerged(after, id, d) && HasUnmerged(after, a, d);
    } else {
      assert HasUnmerged(after, a, d) && HasUnmerged(after, b, d);
    }
  }

  /** An input that was merged before still has its documents at the end of their lines. */
  lemma StaleMergeDoubles(s: State, a: Action) returns (d: Doc)
    requires FreshInv(s) && Enabled(s, a) && !FreshStep(s, a)
    ensures Doubled(Apply(s, a).written, d)
  {
    hide OnDisk, Starts, Edges, Clock.Valid, Line, MergedLine, Overtaking, DocsOf, Merged;
    hide Save.After, Save.Created, Save.Modified, Save.Deleted, Save.Acceptable;
    var Merge(w, save, id) := a;
    FreshIsUnmerged(s, a);
    var i :| i in save.Deleted() && !(i in s.written && s.written[i].xmax == INVALID_XID);
    LoadedIsWritten(s, w);
    d :| d in s.written[i].docs;
    LineOf(s.written, d, s.line[d]);
    var k :| 0 <= k < |s.line[d]| && s.line[d][k] == i;
    var last := s.line[d][|s.line[d]| - 1];
    LineEnds(s.written, d, s.line[d], k);
    LineEnds(s.written, d, s.line[d], |s.line[d]| - 1);
    TwoAfterMerge(s.written, save.Deleted(), s.writers[w].x, id, d, i, last);
  }

  // ---------------------------------------------------------------------------------------------
  // A lost insert is never found again
  // ---------------------------------------------------------------------------------------------

  ghost predicate Missing(s: State, d: Doc) {
    d in s.inserted && forall id :: id in s.written ==> d !in s.written[id].docs
  }

  lemma MissingStays(s: State, a: Action, d: Doc)
    requires Base(s) && Enabled(s, a) && Missing(s, d)
    ensures Missing(Apply(s, a), d)
  {
    hide Base, Save.After, Save.Created, Save.Modified, Save.Deleted, Save.Acceptable, MergedLine, Overtaking, DocsOf;
    if a.Merge? {
      MergedFromInputs(s.written, a.save.Deleted(), d);
    }
  }

  lemma {:induction false} MergedFromInputs(written: Written, ids: set<SegmentId>, d: Doc)
    requires forall id :: id in written ==> d !in written[id].docs
    ensures d !in DocsOf(written, ids)
  {
    if ids != {} {
      var id :| id in ids;
      DocsSplit(written, ids, id);
      MergedFromInputs(written, ids - {id}, d);
    }
  }

  lemma LostIsMissing(s: State, a: Action) returns (d: Doc)
    requires Base(s) && Enabled(s, a) && a.LoseInsert?
    ensures Missing(Apply(s, a), d)
  {
    hide Stamps, Writing, OnDisk, Clock.Valid;
    d :| d in a.docs;
  }

  lemma {:induction false} LostRunMisses(actions: seq<Action>) returns (d: Doc)
    requires Run(actions).Some? && !AllKept(actions)
    ensures Missing(Run(actions).value, d)
  {
    hide Base, Enabled, Apply, Missing;
    var front, a := actions[..|actions| - 1], actions[|actions| - 1];
    BaseHolds(front);
    if a.LoseInsert? {
      d := LostIsMissing(Run(front).value, a);
    } else {
      d := LostRunMisses(front);
      MissingStays(Run(front).value, a, d);
    }
  }

  /** All writers are of one transaction. */
  ghost predicate OnlyBy(actions: seq<Action>, x: Xid) {
    forall a :: a in actions && a.OpenWriter? ==> a.x == x
  }

  /** A transaction by itself loses no insert. */
  lemma {:induction false} SoleTransactionLosesNothing(actions: seq<Action>, x: Xid)
    requires Run(actions).Some? && OnlyBy(actions, x)
    ensures AllKept(actions)
    ensures Run(actions).value.exposed == {}
    ensures forall w :: w in Run(actions).value.writers ==> Run(actions).value.writers[w].x == x
  {
    hide Enabled, Apply;
    if actions != [] {
      var front, a := actions[..|actions| - 1], actions[|actions| - 1];
      SoleTransactionLosesNothing(front, x);
      SoleStep(Run(front).value, a, x);
    }
  }

  lemma SoleStep(s: State, a: Action, x: Xid)
    requires Enabled(s, a) && (a.OpenWriter? ==> a.x == x) && s.exposed == {}
    requires forall w :: w in s.writers ==> s.writers[w].x == x
    ensures !a.LoseInsert? && Apply(s, a).exposed == {}
    ensures forall w :: w in Apply(s, a).writers ==> Apply(s, a).writers[w].x == x
  {
    hide Save.After, Save.Created, Save.Modified, Save.Deleted, Save.Acceptable, DocsOf, Merged, MergedLine;
  }

  /** Nobody will ever see it, though its transaction finishes. */
  lemma MissingIsUnseen(s: State, d: Doc)
    requires Base(s) && Missing(s, d)
    ensures d in s.inserted && Everyone(s).Sees(s.inserted[d])
    ensures forall view: View :: Holders(s, d, view) == {}
    ensures !Once(s, d, Everyone(s), true)
  {
    hide OnDisk, Writing, Stamps, SegmentMetaEntry.Visible, Clock.Valid;
  }

  lemma {:induction false} KeptRunHasLines(actions: seq<Action>)
    requires Run(actions).Some? && AllKept(actions)
    ensures Run(actions).value.line.Keys == Run(actions).value.inserted.Keys
  {
    hide Enabled, Apply;
    if actions != [] {
      var front, a := actions[..|actions| - 1], actions[|actions| - 1];
      KeptRunHasLines(front);
      KeptStepKeepsKeys(Run(front).value, a);
    }
  }

  lemma KeptStepKeepsKeys(s: State, a: Action)
    requires Enabled(s, a) && !a.LoseInsert? && s.line.Keys == s.inserted.Keys
    ensures Apply(s, a).line.Keys == Apply(s, a).inserted.Keys
  {
    hide Save.After, Save.Created, Save.Modified, Save.Deleted, Save.Acceptable, Overtaking, DocsOf, Merged, Missing;
  }

  lemma {:induction false} StaleRunDoubles(actions: seq<Action>) returns (d: Doc)
    requires Run(actions).Some? && !AllFresh(actions)
    ensures Doubled(Run(actions).value.written, d)
  {
    hide Base, Enabled, Apply, FreshStep, FreshInv, Doubled;
    var front, a := actions[..|actions| - 1], actions[|actions| - 1];
    if AllFresh(front) {
      FreshHolds(front);
      d := StaleMergeDoubles(Run(front).value, a);
    } else {
      d := StaleRunDoubles(front);
      BaseHolds(front);
      DoubledStays(Run(front).value, a, d);
    }
  }

  // ---------------------------------------------------------------------------------------------
  // The exact condition
  // ---------------------------------------------------------------------------------------------

  /**
   Over all runs: every snapshot in use, and the one that will see all the transactions there were, sees
   each document of a transaction that it regards as finished, or that is its own, in exactly one segment,
   and no other document, if and only if no insert was lost to a collection, no merge found an xmax in an
   input when it looked that up, and every snapshot in use sees inserted what its own transaction has merged
   away.
   */
  lemma EveryDocOnceIff(actions: seq<Action>)
    requires Run(actions).Some?
    ensures var s := Run(actions).value;
            (EveryDocOnce(s, Everyone(s)) && forall v :: v in s.clock.live ==> EveryDocOnce(s, s.clock.live[v]))
            <==> (AllKept(actions) && AllFresh(actions)
                  && forall v :: v in s.clock.live ==> SeesOwnMerges(s, s.clock.live[v]))
  {
    hide Base, FreshInv, SeesOwnMerges, Run, AllFresh, AllKept, Proper, Once;
    var s := Run(actions).value;
    BaseHolds(actions);
    if !AllKept(actions) {
      var d := LostRunMisses(actions);
      MissingIsUnseen(s, d);
      NotOnce(s, Everyone(s), d);
    } else if AllFresh(actions) {
      KeptRunHasLines(actions);
      FreshHolds(actions);
      EveryoneIsProper(s);
      FreshOnceIff(s, Everyone(s));
      forall v | v in s.clock.live ensures EveryDocOnce(s, s.clock.live[v]) <==> SeesOwnMerges(s, s.clock.live[v]) {
        LiveIsProper(s, v);
        CurrentIsNormal(s, v);
        FreshOnceIff(s, s.clock.live[v]);
      }
    } else {
      var d := StaleRunDoubles(actions);
      DoubledIsSeen(s, d);
      NotOnce(s, Everyone(s), d);
    }
  }

  lemma CurrentIsNormal(s: State, v: nat)
    requires Base(s) && v in s.clock.live
    ensures s.clock.live[v].current != Some(INVALID_XID)
  {}

  lemma NotOnce(s: State, view: View, d: Doc)
    requires d in s.inserted && !Once(s, d, view, view.Sees(s.inserted[d]))
    ensures !EveryDocOnce(s, view)
  {}
}
