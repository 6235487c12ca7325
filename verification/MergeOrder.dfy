/**
 When the merge lock is granted in order, every merge is fresh: what the test of the last merge's
 visibility achieves.
 */
module MergeOrder {
  import opened Wrappers
  import opened Block
  import opened Transactions
  import opened SegmentMetas
  import opened MergeRuns

  /**
   The lock goes to a writer that loaded after the last merge of its own transaction, under a snapshot not
   older than the one it asks under, nor than the one under which its transaction was last granted the lock.
   */
  ghost predicate OrderedStep(s: State, a: Action) {
    a.AcquireForMerge? && a.w in s.writers && a.v in s.clock.live ==>
      var u := s.writers[a.w];
      && !u.overtaken && NotOlder(u.snap, s.clock.live[a.v].snap)
      && (u.x in s.granted ==> NotOlder(u.snap, s.granted[u.x]))
  }

  ghost predicate AllOrdered(actions: seq<Action>) {
    actions != [] ==>
      var before := Run(actions[..|actions| - 1]);
      AllOrdered(actions[..|actions| - 1]) && (before.Some? ==> OrderedStep(before.value, actions[|actions| - 1]))
  }

  // ---------------------------------------------------------------------------------------------
  // What ordered steps keep
  // ---------------------------------------------------------------------------------------------

  ghost predicate Ordered(s: State) {
    && Base(s) && Granting(s.lastMerge, s.holder, s.mergers, s.granted, s.writers)
    && MergersEnd(s.lastMerge, s.mergers, s.clock.active, s.clock.nextXid)
    && LastMergeTells(s.lastMerge, s.mergers, s.clock.live)
    && MergerSaw(s.lastMerge, s.mergers, s.granted, s.clock.active)
    && ByMergers(s.written, s.mergers) && CurrentLoads(s.writers, s.written)
    && OwnEdges(s.written, s.granted, s.clock.active)
  }

  ghost predicate Granting(lastMerge: Xid, holder: Option<nat>, mergers: set<Xid>, granted: map<Xid, Snapshot>,
                           writers: Writers)
  {
    && (lastMerge == INVALID_XID || lastMerge in mergers) && (lastMerge == INVALID_XID ==> mergers == {})
    && (holder.Some? ==>
          var w := holder.value;
          && w in writers && writers[w].x == lastMerge && !writers[w].overtaken
          && lastMerge in granted && granted[lastMerge] == writers[w].snap)
  }

  /** Only the last merger may still be running. */
  ghost predicate MergersEnd(lastMerge: Xid, mergers: set<Xid>, active: set<Xid>, nextXid: Xid) {
    forall a :: a in mergers ==> FIRST_NORMAL_XID <= a < nextXid && (a == lastMerge || a !in active)
  }

  /** Who sees the last merge finished sees every merge. */
  ghost predicate LastMergeTells(lastMerge: Xid, mergers: set<Xid>, live: map<nat, View>) {
    forall v :: v in live && !live[v].IsCurrent(lastMerge) && live[v].Sees(lastMerge) ==> SeesAll(live[v], mergers)
  }

  ghost predicate SeesAll(view: View, xids: set<Xid>) {
    forall a :: a in xids ==> view.Sees(a)
  }

  /** While the last merger runs, the snapshot it was granted the lock under sees every merge but its own. */
  ghost predicate MergerSaw(lastMerge: Xid, mergers: set<Xid>, granted: map<Xid, Snapshot>, active: set<Xid>) {
    lastMerge in active ==>
      && lastMerge in granted
      && forall a :: a in mergers && a != lastMerge ==> !XidInMVCCSnapshot(a, granted[lastMerge])
  }

  ghost predicate ByMergers(written: Written, mergers: set<Xid>) {
    forall id :: id in written ==> written[id].xmax == INVALID_XID || written[id].xmax in mergers
  }

  /** Of what a writer that is not overtaken has, nothing was merged by anyone its snapshot sees. */
  ghost predicate CurrentLoads(writers: Writers, written: Written) {
    forall w :: w in writers && !writers[w].overtaken ==> CurrentLoad(writers[w], written)
  }

  ghost predicate CurrentLoad(u: Writer, written: Written) {
    forall id :: id in u.loaded ==> id in written && Shows(written[id], u.AsView())
  }

  /** What a transaction merged, the snapshot it was last granted the lock under sees. */
  ghost predicate OwnEdges(written: Written, granted: map<Xid, Snapshot>, active: set<Xid>) {
    forall id :: id in written && written[id].xmax in active ==>
      && written[id].xmax in granted
      && (written[id].xmin == written[id].xmax || !XidInMVCCSnapshot(written[id].xmin, granted[written[id].xmax]))
  }

  /** In an ordered run every merge is fresh. */
  lemma {:induction false} OrderedIsFresh(actions: seq<Action>)
    requires Run(actions).Some? && AllOrdered(actions)
    ensures Ordered(Run(actions).value) && AllFresh(actions)
  {
    hide Ordered, Enabled, Apply, FreshStep, OrderedStep;
    if actions == [] {
      InitIsOrdered();
    } else {
      OrderedIsFresh(actions[..|actions| - 1]);
      var s, a := Run(actions[..|actions| - 1]).value, actions[|actions| - 1];
      OrderedStepIsFresh(s, a);
      StepKeepsOrdered(s, a);
    }
  }

  lemma InitIsOrdered()
    ensures Ordered(INIT)
  {}

  /** Whoever holds the lock has only segments that nobody has merged, and finds them all in the list. */
  lemma HolderIsCurrent(s: State, w: nat)
    requires Ordered(s) && s.holder == Some(w)
    ensures w in s.writers
    ensures forall id :: id in s.writers[w].loaded ==>
      && id in s.written && s.written[id].xmax == INVALID_XID
      && id in s.disk && s.disk[id].xmax == INVALID_XID
  {
    hide OnDisk, Known, LastMergeTells, OwnEdges, MergersEnd, Clock.Valid, Stamps;
    forall id | id in s.writers[w].loaded
      ensures && id in s.written && s.written[id].xmax == INVALID_XID
              && id in s.disk && s.disk[id].xmax == INVALID_XID
    {
      EveryoneIsAbove(s);
      FadingShowsToNobody(s, Everyone(s), id);
    }
  }

  lemma OrderedStepIsFresh(s: State, a: Action)
    requires Ordered(s) && Enabled(s, a)
    ensures FreshStep(s, a)
  {
    hide Ordered, Save.After, Save.Created, Save.Modified, Save.Deleted, Save.Acceptable;
    if a.Merge? {
      HolderIsCurrent(s, a.w);
    }
  }

  /**
   The inputs of a merge under the lock are in the list and unmerged: the inputs of two merges are
   disjoint, and a save never fails to find an entry.
   */
  lemma InputsAreCurrent(actions: seq<Action>, w: nat, save: Save)
    requires Run(actions).Some? && AllOrdered(actions) && Run(actions).value.holder == Some(w)
    requires w in Run(actions).value.writers && save.Deleted() <= Run(actions).value.writers[w].loaded
    ensures var s := Run(actions).value;
            save.Deleted() <= s.disk.Keys && forall i :: i in save.Deleted() ==> s.disk[i].xmax == INVALID_XID
  {
    hide Run, AllOrdered, Ordered, Save.Deleted;
    OrderedIsFresh(actions);
    HolderIsCurrent(Run(actions).value, w);
  }

  lemma StepKeepsOrdered(s: State, a: Action)
    requires Ordered(s) && Enabled(s, a) && OrderedStep(s, a)
    ensures Ordered(Apply(s, a))
  {
    hide Base, Enabled, Apply, Granting, MergersEnd, LastMergeTells, MergerSaw, ByMergers, CurrentLoads, OwnEdges;
    hide OrderedStep;
    StepKeepsBase(s, a);
    match a
    case Assign(views) => AssignKeepsOrdered(s, a);
    case TakeSnapshot(v, xmin, current) => TakeSnapshotKeepsOrdered(s, a);
    case ReleaseSnapshot(v) => ReleaseKeepsOrdered(s, a);
    case Finish(x) => FinishKeepsOrdered(s, a);
    case OpenWriter(w, x, v) => OpenWriterKeepsOrdered(s, a);
    case Insert(w, save, id, docs) => InsertKeepsOrdered(s, a);
    case LoseInsert(w, docs) => LoseInsertKeepsOrdered(s, a);
    case AcquireForMerge(w, v) => AcquireKeepsOrdered(s, a);
    case DropMergeLock(w) => DropKeepsOrdered(s, a);
    case CloseWriter(w) => DropKeepsOrdered(s, a);
    case Merge(w, save, id) => MergeKeepsOrdered(s, a);
    case Collect(env) => CollectKeepsOrdered(s, a);
  }

  lemma AssignKeepsOrdered(s: State, a: Action)
    requires a.Assign? && Ordered(s) && Enabled(s, a) && Base(Apply(s, a))
    ensures Ordered(Apply(s, a))
  {
    hide OnDisk, Known, Writing, CurrentLoads, ByMergers;
    AssignKeepsClock(s.clock, a.views);
  }

  lemma TakeSnapshotKeepsOrdered(s: State, a: Action)
    requires a.TakeSnapshot? && Ordered(s) && Enabled(s, a) && Base(Apply(s, a))
    ensures Ordered(Apply(s, a))
  {
    hide OnDisk, Known, Writing, CurrentLoads, ByMergers, Granting, MergerSaw, OwnEdges, Stamps, Clock.Valid;
    var c := s.clock.TakeSnapshot(a.v, a.xmin, a.current);
    TakeSnapshotKeepsClock(s.clock, a.v, a.xmin, a.current);
    RunningIsUnseen(c, a.v);
  }

  lemma ReleaseKeepsOrdered(s: State, a: Action)
    requires a.ReleaseSnapshot? && Ordered(s) && Enabled(s, a) && Base(Apply(s, a))
    ensures Ordered(Apply(s, a))
  {
    hide Base, CurrentLoads, ByMergers, Granting, MergerSaw, OwnEdges, MergersEnd;
  }

  lemma FinishKeepsOrdered(s: State, a: Action)
    requires a.Finish? && Ordered(s) && Enabled(s, a) && Base(Apply(s, a))
    ensures Ordered(Apply(s, a))
  {
    hide Base, ByMergers;
  }

  lemma OpenWriterKeepsOrdered(s: State, a: Action)
    requires a.OpenWriter? && Ordered(s) && Enabled(s, a) && Base(Apply(s, a))
    ensures Ordered(Apply(s, a))
  {
    hide Base, ByMergers, LastMergeTells, MergerSaw, OwnEdges, MergersEnd, SegmentMetaEntry.Visible;
    var view := s.clock.live[a.v];
    BaseIsClocked(s);
    LiveIsAbove(s.clock, a.v);
    forall id | id in VisibleIn(s.disk, view) ensures id in s.written && Shows(s.written[id], view) {
      DiskIsWritten(s);
      FadingShowsToNobody(s, view, id);
    }
  }

  lemma BaseIsClocked(s: State)
    requires Base(s)
    ensures s.clock.Valid()
  {}

  lemma InsertKeepsOrdered(s: State, a: Action)
    requires a.Insert? && Ordered(s) && Enabled(s, a) && Base(Apply(s, a))
    ensures Ordered(Apply(s, a))
  {
    hide Base, LastMergeTells, MergerSaw, MergersEnd, CurrentLoads, OwnEdges, ByMergers;
    hide Save.After, Save.Created, Save.Modified, Save.Deleted, Save.Acceptable;
    BaseIsClocked(s);
    InvalidIsNotRunning(s.clock);
    InsertedOrdered(s, a.w, a.id, Segment(s.writers[a.w].x, INVALID_XID, multiset(a.docs)));
  }

  lemma LoseInsertKeepsOrdered(s: State, a: Action)
    requires a.LoseInsert? && Ordered(s) && Enabled(s, a) && Base(Apply(s, a))
    ensures Ordered(Apply(s, a))
  {
    hide Base, Granting, LastMergeTells, MergerSaw, MergersEnd, CurrentLoads, OwnEdges, ByMergers;
  }

  lemma InsertedOrdered(s: State, w: nat, id: SegmentId, e: Segment)
    requires Ordered(s) && w in s.writers && id !in s.written
    requires e.xmin == s.writers[w].x && e.xmax == INVALID_XID && INVALID_XID !in s.clock.active
    ensures var writers := s.writers[w := s.writers[w].(loaded := s.writers[w].loaded + {id})];
            && CurrentLoads(writers, s.written[id := e])
            && Granting(s.lastMerge, s.holder, s.mergers, s.granted, writers)
    ensures ByMergers(s.written[id := e], s.mergers)
    ensures OwnEdges(s.written[id := e], s.granted, s.clock.active)
  {
    hide Base, LastMergeTells, MergerSaw, MergersEnd;
  }

  lemma InvalidIsNotRunning(c: Clock)
    requires c.Valid()
    ensures INVALID_XID !in c.active
  {}

  lemma AcquireKeepsOrdered(s: State, a: Action)
    requires a.AcquireForMerge? && Ordered(s) && Enabled(s, a) && OrderedStep(s, a) && Base(Apply(s, a))
    ensures Ordered(Apply(s, a))
  {
    hide OnDisk, Known, Stamps, CurrentLoads, Clock.Valid, HasOther;
    var x := s.writers[a.w].x;
    WriterRuns(s, a.w);
    RunningIsUnseen(s.clock, a.v);
    forall v | v in s.clock.live && !s.clock.live[v].IsCurrent(x) ensures !s.clock.live[v].Sees(x) {
      RunningIsUnseen(s.clock, v);
    }
  }

  lemma DropKeepsOrdered(s: State, a: Action)
    requires a.DropMergeLock? || a.CloseWriter?
    requires Ordered(s) && Enabled(s, a) && Base(Apply(s, a))
    ensures Ordered(Apply(s, a))
  {
    hide Base, LastMergeTells, MergerSaw, OwnEdges, MergersEnd, ByMergers;
  }

  lemma CollectKeepsOrdered(s: State, a: Action)
    requires a.Collect? && Ordered(s) && Enabled(s, a) && Base(Apply(s, a))
    ensures Ordered(Apply(s, a))
  {
    hide Base, Granting, LastMergeTells, MergerSaw, OwnEdges, MergersEnd, ByMergers, CurrentLoads;
  }

  lemma MergeKeepsOrdered(s: State, a: Action)
    requires a.Merge? && Ordered(s) && Enabled(s, a) && Base(Apply(s, a))
    ensures Ordered(Apply(s, a))
  {
    hide Base, LastMergeTells, MergerSaw, MergersEnd, DocsOf, MergedLine, CurrentLoads, ByMergers, OwnEdges;
    hide Save.After, Save.Created, Save.Modified, Save.Deleted, Save.Acceptable, Merged, Overtaking;
    var ids, x := a.save.Deleted(), s.writers[a.w].x;
    WriterRuns(s, a.w);
    BaseIsClocked(s);
    InvalidIsNotRunning(s.clock);
    MergedByMergers(s.written, s.mergers, ids, x, a.id);
    MergedOwnEdges(s, a.w, ids, a.id);
    MergedLoads(s, a.w, ids, a.id);
    OvertakenGranting(s, a.w, ids, a.id);
  }

  lemma MergedByMergers(written: Written, mergers: set<Xid>, ids: set<SegmentId>, x: Xid, id: SegmentId)
    requires ByMergers(written, mergers) && x in mergers
    ensures ByMergers(Merged(written, ids, x, id), mergers)
  {
    hide DocsOf;
  }

  lemma MergedOwnEdges(s: State, w: nat, ids: set<SegmentId>, id: SegmentId)
    requires Ordered(s) && s.holder == Some(w) && w in s.writers && ids <= s.writers[w].loaded && id !in s.written
    ensures OwnEdges(Merged(s.written, ids, s.writers[w].x, id), s.granted, s.clock.active)
  {
    hide DocsOf, OnDisk, Known, LastMergeTells, MergerSaw, MergersEnd, Stamps, CurrentLoads, ByMergers;
    InvalidIsNotRunning(s.clock);
  }

  lemma MergedLoads(s: State, w: nat, ids: set<SegmentId>, id: SegmentId)
    requires Ordered(s) && w in s.writers && ids <= s.writers[w].loaded && id !in s.written
    ensures CurrentLoads(Overtaking(s.writers, w, ids, id), Merged(s.written, ids, s.writers[w].x, id))
  {
    hide DocsOf, OnDisk, Known, LastMergeTells, MergerSaw, MergersEnd, Stamps, ByMergers, OwnEdges, Granting;
    hide Clock.Valid, CurrentLoad;
    var x := s.writers[w].x;
    var writers, written := Overtaking(s.writers, w, ids, id), Merged(s.written, ids, x, id);
    forall u | u in writers && !writers[u].overtaken ensures CurrentLoad(writers[u], written) {
      RunningIsUnseen(s.clock, s.writers[u].holding);
      MergedLoad(s.writers[u], s.written, ids, x, id, u == w);
    }
  }

  lemma MergedLoad(u: Writer, written: Written, ids: set<SegmentId>, x: Xid, id: SegmentId, own: bool)
    requires CurrentLoad(u, written) && id !in written
    requires own ==> u.x == x
    requires !own ==> !u.AsView().Sees(x)
    ensures CurrentLoad(if own then u.(loaded := u.loaded - ids + {id}) else u, Merged(written, ids, x, id))
  {
    hide DocsOf;
  }

  lemma OvertakenGranting(s: State, w: nat, ids: set<SegmentId>, id: SegmentId)
    requires Ordered(s) && s.holder == Some(w) && w in s.writers
    ensures Granting(s.lastMerge, s.holder, s.mergers, s.granted, Overtaking(s.writers, w, ids, id))
  {
    hide Base, LastMergeTells, MergerSaw, MergersEnd, CurrentLoads, ByMergers, OwnEdges;
  }

  /**
   So in an ordered run every reader sees every document that is not lost once, and so does every snapshot of
   a writing transaction that is not older than the one under which it was last granted the lock.
   */
  lemma NewEnoughSeesOnce(actions: seq<Action>, v: nat)
    requires Run(actions).Some? && AllOrdered(actions) && v in Run(actions).value.clock.live
    requires var s := Run(actions).value;
             var view := s.clock.live[v];
             view.current.Some? && view.current.value in s.granted ==>
               NotOlder(view.snap, s.granted[view.current.value])
    ensures var s := Run(actions).value; EveryKeptOnce(s, s.clock.live[v])
    ensures AllKept(actions) ==> EveryDocOnce(Run(actions).value, Run(actions).value.clock.live[v])
  {
    hide FreshInv, Ordered, Run, Once, AllFresh, AllOrdered, Proper, AllKept;
    if AllKept(actions) {
      KeptRunHasLines(actions);
    }
    var s := Run(actions).value;
    OrderedIsFresh(actions);
    FreshHolds(actions);
    NewEnoughSeesOwn(s, v);
    LiveIsProper(s, v);
    FreshIsBase(s);
    CurrentIsNormal(s, v);
    FreshOnceIff(s, s.clock.live[v]);
  }

  lemma FreshIsBase(s: State)
    requires FreshInv(s)
    ensures Base(s)
  {}

  lemma NewEnoughSeesOwn(s: State, v: nat)
    requires Ordered(s) && v in s.clock.live
    requires s.clock.live[v].current.Some? && s.clock.live[v].current.value in s.granted ==>
      NotOlder(s.clock.live[v].snap, s.granted[s.clock.live[v].current.value])
    ensures SeesOwnMerges(s, s.clock.live[v])
  {
    hide OnDisk, Known, Stamps, LastMergeTells, MergerSaw, MergersEnd, CurrentLoads, ByMergers, Writing;
  }
}
