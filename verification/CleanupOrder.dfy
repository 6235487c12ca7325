/**
 When the merge lock is granted in order, no writer that gets it after the deletes has anything deleted:
 what the test of the last merge's visibility achieves for `ambulkdelete`.
 */
module CleanupOrder {
  import opened Wrappers
  import opened Block
  import opened Transactions
  import opened CleanupLock

  /** The merge lock goes to a writer whose snapshot is not older than the one it asks under, nor than the
      one under which its transaction was last granted the lock. */
  ghost predicate OrderedStep(s: State, a: Action) {
    a.AcquireForMerge? && a.w in s.writers && a.v in s.clock.live ==>
      var u := s.writers[a.w];
      && NotOlder(u.snap, s.clock.live[a.v].snap)
      && (u.x in s.granted ==> NotOlder(u.snap, s.granted[u.x]))
  }

  ghost predicate AllOrdered(actions: seq<Action>) {
    actions != [] ==>
      var before := Run(actions[..|actions| - 1]);
      AllOrdered(actions[..|actions| - 1]) && (before.Some? ==> OrderedStep(before.value, actions[|actions| - 1]))
  }

  // ---------------------------------------------------------------------------------------------
  // What ordered steps keep
  // ---------------------------------------------------------------------------------------------

  ghost predicate Telling(s: State) {
    && Told(s.phase, s.told, s.vacuum, s.clock.active, s.clock.nextXid)
    && LastTells(s.told, s.lastMerge, s.granted, s.clock.live, s.clock.active)
    && OutsTold(s.phase, s.told, s.vacuum, s.leftOuts, s.clock.active)
    && SeesOuts(s.told, s.vacuum, s.leftOuts, s.clock.live)
    && CleanWriters(s.phase, s.told, s.holder, s.writers, Past(s))
  }

  /** The last vacuum to release the lock runs only as long as it is the vacuum. */
  ghost predicate Told(phase: Phase, told: Xid, vacuum: Option<Xid>, active: set<Xid>, nextXid: Xid) {
    && (told in active ==> vacuum == Some(told)) && told < nextXid
    && ((phase.Idle? || phase.Dropped?) && vacuum.Some? ==> told == vacuum.value)
  }

  /** Who sees the last merge finished sees that vacuum finished; so does the last to be granted the lock. */
  ghost predicate LastTells(told: Xid, lastMerge: Xid, granted: map<Xid, Snapshot>, live: map<nat, View>,
                            active: set<Xid>)
  {
    && (forall v :: v in live && !live[v].IsCurrent(lastMerge) && live[v].Sees(lastMerge) ==> live[v].Sees(told))
    && (lastMerge != told ==> told !in active)
    && (lastMerge in active && lastMerge != told && told != INVALID_XID ==>
          lastMerge in granted && !XidInMVCCSnapshot(told, granted[lastMerge]))
  }

  /** Whose commit left something out is no vacuum that runs, or the one that does. */
  ghost predicate OutsTold(phase: Phase, told: Xid, vacuum: Option<Xid>, leftOuts: set<LeftOut>, active: set<Xid>) {
    forall o :: o in leftOuts ==>
      && (o.segment.xmax in active ==> vacuum == Some(o.segment.xmax))
      && (vacuum == Some(o.segment.xmax) ==> told == o.segment.xmax || phase.Committed?)
  }

  /** Who sees that vacuum finished sees all of them finished. */
  ghost predicate SeesOuts(told: Xid, vacuum: Option<Xid>, leftOuts: set<LeftOut>, live: map<nat, View>) {
    forall v, o :: v in live && live[v].Sees(told) && !live[v].IsCurrent(told) && o in leftOuts ==>
      vacuum == Some(o.segment.xmax) || live[v].Sees(o.segment.xmax)
  }

  /** A writer that sees that vacuum finished has nothing deleted alive; who holds the lock sees it. */
  ghost predicate CleanWriters(phase: Phase, told: Xid, holder: Option<Holder>, writers: Writers, past: set<Doc>) {
    && (!phase.Committed? ==>
          forall w :: w in writers && writers[w].AsView().Sees(told) ==> CleanLoad(writers[w], past))
    && (holder.Some? && holder.value.ByWriter? && holder.value.w in writers ==>
          writers[holder.value.w].AsView().Sees(told))
  }

  ghost predicate CleanLoad(u: Writer, past: set<Doc>) {
    forall id :: id in u.loaded ==> u.loaded[id] !! past
  }

  /** In an ordered run the merge lock never goes to a writer that has anything deleted. */
  lemma {:induction false} OrderedIsClean(actions: seq<Action>)
    requires Run(actions).Some? && AllOrdered(actions)
    ensures AllClean(actions) && Telling(Run(actions).value)
  {
    hide Telling, Enabled, Apply, CleanStep, OrderedStep, Inv;
    if actions == [] {
      assert Telling(INIT) by { InitTells(); }
    } else {
      OrderedIsClean(actions[..|actions| - 1]);
      InvHolds(actions[..|actions| - 1]);
      var s, a := Run(actions[..|actions| - 1]).value, actions[|actions| - 1];
      OrderedStepIsClean(s, a);
      StepKeepsTelling(s, a);
    }
  }

  lemma InitTells()
    ensures Telling(INIT)
  {}

  lemma OrderedStepIsClean(s: State, a: Action)
    requires Inv(s) && Telling(s) && Enabled(s, a) && OrderedStep(s, a)
    ensures CleanStep(s, a)
  {
    hide Cleaning, Scanning, Known, Stamps, Loads, Shrinks, CleanLoad, CleanFor, Past, LastTells, SeesOuts, Clock.Valid;
    if a.AcquireForMerge? {
      AskerSeesVacuum(s, a);
      assert CleanLoad(s.writers[a.w], Past(s));
      CleanLoadIsClean(s, a.w);
    }
  }

  lemma CleanLoadIsClean(s: State, w: nat)
    requires w in s.writers && CleanLoad(s.writers[w], Past(s))
    ensures CleanFor(s.segments, s.writers[w].loaded, Past(s))
  {
    hide Past;
  }

  /** Whoever is granted the lock in order sees the last vacuum to have released it finished. */
  lemma AskerSeesVacuum(s: State, a: Action)
    requires a.AcquireForMerge? && Inv(s) && Telling(s) && Enabled(s, a) && OrderedStep(s, a)
    ensures s.writers[a.w].AsView().Sees(s.told) && s.told !in s.clock.active
  {
    hide Cleaning, Scanning, Known, Loads, Shrinks, CleanWriters, OutsTold, SeesOuts, Past, Clock.Valid;
    RunningIsUnseen(s.clock, a.v);
    RunningIsClocked(s.clock, s.writers[a.w].x);
    if s.told == INVALID_XID {
      NoneIsSeen(s.clock, s.writers[a.w].holding);
    }
  }

  lemma NoneIsSeen(c: Clock, v: nat)
    requires c.Valid() && v in c.live
    ensures INVALID_XID !in c.active && !XidInMVCCSnapshot(INVALID_XID, c.live[v].snap)
  {}

  lemma StepKeepsTelling(s: State, a: Action)
    requires Inv(s) && Telling(s) && Enabled(s, a) && OrderedStep(s, a)
    ensures Telling(Apply(s, a))
  {
    hide Inv, Telling, Enabled, Apply, OrderedStep;
    match a
    case Assign(views) => AssignTells(s, a);
    case TakeSnapshot(v, xmin, current) => TakeSnapshotTells(s, a);
    case ReleaseSnapshot(v) => FinishTells(s, a);
    case Finish(x) => FinishTells(s, a);
    case OpenWriter(w, x, v) => OpenWriterTells(s, a);
    case Reread(w, id) => RereadTells(s, a);
    case Insert(w, id, docs) => InsertTells(s, a);
    case AcquireForMerge(w, v) => AcquireTells(s, a);
    case Merge(w, inputs, id) => MergeTells(s, a);
    case DropMergeLock(w) => DropLockTells(s, a);
    case CloseWriter(w) => DropLockTells(s, a);
    case CommitDeletes(leaveOut) => CommitTells(s, a);
    case DropDeleteLock => ReleaseTells(s, a);
    case Fail => ReleaseTells(s, a);
    case _ => QuietTells(s, a);
  }

  lemma AssignTells(s: State, a: Action)
    requires a.Assign? && Inv(s) && Telling(s) && Enabled(s, a)
    ensures Telling(Apply(s, a))
  {
    hide Cleaning, Scanning, Known, Loads, Shrinks, CleanLoad, Past, Clock.Valid;
    assert Past(Apply(s, a)) == Past(s) by { SamePast(s, a); }
    AssignKeepsClock(s.clock, a.views);
  }

  lemma TakeSnapshotTells(s: State, a: Action)
    requires a.TakeSnapshot? && Inv(s) && Telling(s) && Enabled(s, a)
    ensures Telling(Apply(s, a))
  {
    hide Cleaning, Scanning, Known, Loads, Shrinks, CleanWriters, Past, Clock.Valid;
    assert Past(Apply(s, a)) == Past(s) by { SamePast(s, a); }
    TakeSnapshotKeepsClock(s.clock, a.v, a.xmin, a.current);
    RunningIsUnseen(s.clock.TakeSnapshot(a.v, a.xmin, a.current), a.v);
  }

  lemma FinishTells(s: State, a: Action)
    requires (a.Finish? || a.ReleaseSnapshot?) && Inv(s) && Telling(s) && Enabled(s, a)
    ensures Telling(Apply(s, a))
  {
    hide Cleaning, Scanning, Known, Stamps, Loads, Shrinks, CleanLoad, Past, Clock.Valid;
    assert Past(Apply(s, a)) == Past(s) by { SamePast(s, a); }
    NobodySeesRunning(s.clock);
  }

  lemma NobodySeesRunning(c: Clock)
    requires c.Valid()
    ensures forall v, x :: v in c.live && x in c.active && !c.live[v].IsCurrent(x) ==> !c.live[v].Sees(x)
  {
    hide Clock.Valid;
    forall v | v in c.live ensures forall x :: x in c.active && !c.live[v].IsCurrent(x) ==> !c.live[v].Sees(x) {
      RunningIsUnseen(c, v);
    }
  }

  lemma OpenWriterTells(s: State, a: Action)
    requires a.OpenWriter? && Inv(s) && Telling(s) && Enabled(s, a)
    ensures Telling(Apply(s, a))
  {
    hide Cleaning, Scanning, Known, Stamps, Loads, Shrinks, LastTells, Told, OutsTold, CleanLoad, Past, VisibleIn;
    hide Clock.Valid;
    assert Past(Apply(s, a)) == Past(s) by { SamePast(s, a); }
    OpensClean(s, a);
  }

  lemma OpensClean(s: State, a: Action)
    requires a.OpenWriter? && Inv(s) && Telling(s) && Enabled(s, a)
    ensures !s.phase.Committed? && s.clock.live[a.v].Sees(s.told) ==>
              CleanLoad(Apply(s, a).writers[a.w], Past(s))
  {
    hide Writing, Scanning, Known, Loads, Shrinks, Cleaning, LastTells, CleanWriters, Past, IsLeftOut, Clock.Valid;
    var view := s.clock.live[a.v];
    if !s.phase.Committed? && view.Sees(s.told) {
      forall id, d | id in s.segments && s.segments[id].Visible(view) && d in Past(s)
        ensures d !in s.segments[id].alive
      {
        if d in s.segments[id].alive {
          VisibleIsLeftOut(s, a.v, id, d);
          NoneLeftOut(s, a, id, d);
        }
      }
    }
  }

  /** A segment that a commit left out does not show to who sees that vacuum finished. */
  lemma NoneLeftOut(s: State, a: Action, id: SegmentId, d: Doc)
    requires a.OpenWriter? && Inv(s) && Telling(s) && Enabled(s, a) && !s.phase.Committed?
    requires s.clock.live[a.v].Sees(s.told) && id in s.segments && s.segments[id].Visible(s.clock.live[a.v])
    ensures !IsLeftOut(s.leftOuts, id, s.segments[id], d)
  {
    hide Writing, Scanning, Known, Loads, Shrinks, Cleaning, LastTells, CleanWriters, Past, Clock.Valid;
    RunningIsUnseen(s.clock, a.v);
  }

  lemma RereadTells(s: State, a: Action)
    requires a.Reread? && Inv(s) && Telling(s) && Enabled(s, a)
    ensures Telling(Apply(s, a))
  {
    hide Scanning, Locks, Known, Stamps, Cleaning, Loads, Told, LastTells, OutsTold, SeesOuts, Past, Clock.Valid;
    assert Past(Apply(s, a)) == Past(s) by { SamePast(s, a); }
  }

  lemma InsertTells(s: State, a: Action)
    requires a.Insert? && Inv(s) && Telling(s) && Enabled(s, a)
    ensures Telling(Apply(s, a))
  {
    hide Tracking, Clean, CleanHolder, CleanScans, Told, LastTells, OutsTold, SeesOuts;
    assert Past(Apply(s, a)) == Past(s) by { SamePast(s, a); }
  }

  lemma AcquireTells(s: State, a: Action)
    requires a.AcquireForMerge? && Inv(s) && Telling(s) && Enabled(s, a) && OrderedStep(s, a)
    ensures Telling(Apply(s, a))
  {
    hide Cleaning, Scanning, Known, Loads, Shrinks, CleanLoad, OutsTold, SeesOuts, OrderedStep, Past, Clock.Valid;
    assert Past(Apply(s, a)) == Past(s) by { SamePast(s, a); }
    AskerSeesVacuum(s, a);
    NobodySeesRunning(s.clock);
  }

  lemma MergeTells(s: State, a: Action)
    requires a.Merge? && Inv(s) && Telling(s) && Enabled(s, a)
    ensures Telling(Apply(s, a))
  {
    hide Inv, Told, LastTells, OutsTold, SeesOuts, Merged, Past;
    assert Past(Apply(s, a)) == Past(s) by { SamePast(s, a); }
  }

  lemma DropLockTells(s: State, a: Action)
    requires (a.DropMergeLock? || a.CloseWriter?) && Inv(s) && Telling(s) && Enabled(s, a)
    ensures Telling(Apply(s, a))
  {
    hide Cleaning, Scanning, Known, Stamps, Loads, Shrinks, CleanLoad, OutsTold, SeesOuts, Past, Clock.Valid;
    assert Past(Apply(s, a)) == Past(s) by { SamePast(s, a); }
  }

  lemma CommitTells(s: State, a: Action)
    requires a.CommitDeletes? && Inv(s) && Telling(s) && Enabled(s, a)
    ensures Telling(Apply(s, a))
  {
    hide Cleaning, Scanning, Known, Loads, Shrinks, CleanLoad, Deleting, Past, Clock.Valid;
  }

  lemma ReleaseTells(s: State, a: Action)
    requires (a.DropDeleteLock? || a.Fail?) && Inv(s) && Telling(s) && Enabled(s, a)
    ensures Telling(Apply(s, a))
  {
    hide Scanning, Known, Loads, Cleaning, Clock.Valid;
    NobodySeesRunning(s.clock);
    NoWriterSees(s);
  }

  lemma NoWriterSees(s: State)
    requires Inv(s)
    ensures s.vacuum.Some? ==> forall w :: w in s.writers ==> !s.writers[w].AsView().Sees(s.vacuum.value)
  {
    hide Scanning, Known, Loads, Cleaning, Shrinks, Stamps, Clock.Valid;
    NobodySeesRunning(s.clock);
    if s.vacuum.Some? {
      forall w | w in s.writers ensures !s.writers[w].AsView().Sees(s.vacuum.value) {
        assert s.clock.live[s.writers[w].holding] == s.writers[w].AsView();
      }
    }
  }

  lemma QuietTells(s: State, a: Action)
    requires Inv(s) && Telling(s) && Enabled(s, a)
    requires a.CollectSegment? || a.OpenScan? || a.LoadScan? || a.OpenSegment? || a.CloseScan?
             || a.AcquireForDelete? || a.GetVacuumId? || a.ReadAll? || a.Return?
    ensures Telling(Apply(s, a))
  {
    hide Cleaning, Writing, Scanning, Known, Stamps, Loads, Shrinks, CleanLoad, Past, VisibleIn, DocsOf, Clock.Valid;
    assert Past(Apply(s, a)) == Past(s) by { SamePast(s, a); }
  }
}
