/**
 Runs of the handshake in which a deleted document comes out after the call has returned: each shows that
 one condition of the safety theorems is needed.  And some in which calls fail, and writers and segments go.
 */
module CleanupExamples {
  import opened Wrappers
  import opened Block
  import opened Transactions
  import opened CleanupLock
  import opened CleanupOrder
  import opened CleanupGrants

  lemma Step(actions: seq<Action>, a: Action) returns (longer: seq<Action>, t: State)
    requires Run(actions).Some? && Enabled(Run(actions).value, a) && AllOrdered(actions)
    requires OrderedStep(Run(actions).value, a)
    ensures Run(longer) == Some(t) && t == Apply(Run(actions).value, a) && AllOrdered(longer)
  {
    longer := actions + [a];
    assert longer[..|longer| - 1] == actions;
    t := Apply(Run(actions).value, a);
  }

  lemma RunOfNothing()
    ensures Run([]) == Some(INIT) && AllOrdered([])
  {}

  lemma WriterOpens() returns (actions: seq<Action>, s: State)
    ensures Run(actions) == Some(s) && AllOrdered(actions)
    ensures s == INIT.(clock := s.clock, writers := s.writers) && s.clock.active == {3} && s.clock.nextXid == 4
    ensures s.clock.live == map[0 := View(Snapshot(3, 3, {}), Some(3))] && s.clock.oldest == 3
    ensures s.writers == map[0 := Writer(3, 0, Snapshot(3, 3, {}), map[])]
  {
    hide Run, AllOrdered;
    RunOfNothing();
    actions, s := Step([], TakeSnapshot(0, 3, None));
    actions, s := Step(actions, Assign({0}));
    actions, s := Step(actions, OpenWriter(0, 3, 0));
  }

  /** Transaction 3 inserts one document. */
  lemma OneSegment(d: Doc) returns (actions: seq<Action>, s: State)
    ensures Run(actions) == Some(s) && AllOrdered(actions)
    ensures s == INIT.(clock := START.(nextXid := 4), known := {d}, ids := {1},
                       segments := map[1 := Segment(3, INVALID_XID, {d}, {d})])
  {
    hide Run, AllOrdered;
    actions, s := WriterOpens();
    actions, s := Step(actions, Insert(0, 1, {d}));
    actions, s := Step(actions, Finish(3));
    assert s.clock.live == map[] && s.clock.active == {} && s.scans == map[] && s.writers == map[];
    assert s.known == {d} && s.ids == {1};
  }

  /** The one segment, with the document alive, and nobody sees yet that it is deleted under `xmax`. */
  ghost predicate OnlySegment(segments: Segments, d: Doc, xmax: Xid) {
    segments == map[1 := Segment(3, xmax, {d}, {d})] && (xmax == INVALID_XID || 3 <= xmax)
  }

  /** The vacuum takes the lock, gets the next id and finds the document dead. */
  lemma VacuumReads(d: Doc, xmax: Xid, before: seq<Action>, s0: State) returns (actions: seq<Action>, s: State)
    requires Run(before) == Some(s0) && AllOrdered(before) && OnlySegment(s0.segments, d, xmax)
    requires s0.phase.Idle? && s0.holder == None && s0.vacuum == None && s0.clock.MayRemoveBelow(3)
    requires s0.clock.oldest == 3 && forall w :: w in s0.writers ==> s0.writers[w].x != s0.clock.nextXid
    ensures Run(actions) == Some(s) && AllOrdered(actions)
    ensures var x := s0.clock.nextXid;
            s == s0.(clock := s0.clock.Assign({}), phase := Loaded, vacuum := Some(x), holder := Some(ByVacuum),
                     dead := {d.ctid}, found := {1}, deleted := {d})
  {
    hide Run, AllOrdered;
    var s1;
    actions, s1 := VacuumLocks(d, before, s0);
    actions, s := Step(actions, ReadAll(3));
    assert s.found == {1};
    ReadsIt(s1.segments, d, xmax);
  }

  lemma VacuumLocks(d: Doc, before: seq<Action>, s0: State) returns (actions: seq<Action>, s: State)
    requires Run(before) == Some(s0) && AllOrdered(before)
    requires s0.phase.Idle? && s0.holder == None && s0.vacuum == None
    requires forall w :: w in s0.writers ==> s0.writers[w].x != s0.clock.nextXid
    ensures Run(actions) == Some(s) && AllOrdered(actions)
    ensures var x := s0.clock.nextXid;
            s == s0.(clock := s0.clock.Assign({}), phase := Locked, vacuum := Some(x), holder := Some(ByVacuum),
                     dead := {d.ctid})
  {
    hide Run, AllOrdered;
    actions, s := Step(before, Assign({}));
    actions, s := Step(actions, AcquireForDelete({d.ctid}));
    actions, s := Step(actions, GetVacuumId(s0.clock.nextXid));
  }

  lemma ReadsIt(segments: Segments, d: Doc, xmax: Xid)
    requires OnlySegment(segments, d, xmax)
    ensures (set e | e in DocsOf(segments, {1}) && e.ctid in {d.ctid}) == {d}
  {
    assert DocsOf(segments, {1}) == {d} by { assert d in segments[1].docs; }
  }

  /** What its commit makes of the segment. */
  ghost function After(d: Doc, xmax: Xid, x: Xid, leaveOut: set<SegmentId>): Segment {
    if leaveOut == {} then Segment(3, xmax, {d}, {}) else Segment(3, x, {d}, {d})
  }

  ghost function OutOf(d: Doc, x: Xid, leaveOut: set<SegmentId>): set<LeftOut> {
    if leaveOut == {} then {} else {LeftOut(1, Segment(3, x, {d}, {d}))}
  }

  /** It commits the deletes, leaving the segment out or not, and releases the lock. */
  lemma VacuumDrops(d: Doc, xmax: Xid, before: seq<Action>, s0: State, leaveOut: set<SegmentId>)
    returns (actions: seq<Action>, s: State)
    requires Run(before) == Some(s0) && AllOrdered(before) && s0.phase.Loaded? && s0.found == {1}
    requires OnlySegment(s0.segments, d, xmax) && s0.deleted == {d} && s0.vacuum.Some? && leaveOut <= {1}
    ensures Run(actions) == Some(s) && AllOrdered(actions)
    ensures var x := s0.vacuum.value;
            s == s0.(phase := Dropped, holder := None, lastMerge := x, told := x,
                     segments := map[1 := After(d, xmax, x, leaveOut)],
                     leftOuts := s0.leftOuts + OutOf(d, x, leaveOut))
  {
    hide Run, AllOrdered, Deleting, LeavingOut, AsLeftOuts;
    Commits(s0.segments, d, xmax, s0.vacuum.value, leaveOut);
    actions, s := Step(before, CommitDeletes(leaveOut));
    actions, s := Step(actions, DropDeleteLock);
  }

  lemma Commits(segments: Segments, d: Doc, xmax: Xid, x: Xid, leaveOut: set<SegmentId>)
    requires OnlySegment(segments, d, xmax) && leaveOut <= {1}
    ensures var out := LeavingOut(segments, leaveOut, x);
            && Deleting(segments, {1}, {d}, out) == map[1 := After(d, xmax, x, leaveOut)]
            && AsLeftOuts(out) == OutOf(d, x, leaveOut)
  {
    var out := LeavingOut(segments, leaveOut, x);
    if leaveOut == {} {
      assert out == map[] && AsLeftOuts(out) == {};
      assert segments[1].alive - {d} == {};
    } else {
      assert 1 in leaveOut && out == map[1 := Segment(3, x, {d}, {d})];
      assert AsLeftOuts(out) == {LeftOut(1, out[1])};
    }
  }

  /** And the call returns: nothing is pinned. */
  lemma VacuumReturns(d: Doc, before: seq<Action>, s0: State, leaveOut: set<SegmentId>)
    returns (actions: seq<Action>, s: State)
    requires Run(before) == Some(s0) && AllOrdered(before) && s0.phase.Loaded? && s0.found == {1}
    requires OnlySegment(s0.segments, d, INVALID_XID) && s0.deleted == {d} && s0.vacuum.Some? && leaveOut <= {1}
    requires forall k :: k in s0.scans ==> !s0.scans[k].pinned
    ensures Run(actions) == Some(s) && AllOrdered(actions)
    ensures var x := s0.vacuum.value;
            s == s0.(phase := Idle, holder := None, lastMerge := x, told := x, deleted := {},
                     returned := s0.returned + {d}, segments := map[1 := After(d, INVALID_XID, x, leaveOut)],
                     leftOuts := s0.leftOuts + OutOf(d, x, leaveOut))
  {
    hide Run, AllOrdered, After, OutOf;
    actions, s := VacuumDrops(d, INVALID_XID, before, s0, leaveOut);
    actions, s := Step(actions, Return);
  }

  /** A call that fails before its commit. */
  lemma CallFails(d: Doc) returns (actions: seq<Action>, s: State)
    ensures Run(actions) == Some(s) && AllOrdered(actions)
    ensures s.phase.Idle? && s.holder == None && s.deleted == {} && s.returned == {} && s.vacuum == Some(4)
    ensures s.segments == map[1 := Segment(3, INVALID_XID, {d}, {d})] && s.clock.MayRemoveBelow(3)
  {
    hide Run, AllOrdered;
    var s0;
    actions, s0 := OneSegment(d);
    actions, s := VacuumReads(d, INVALID_XID, actions, s0);
    actions, s := Step(actions, Fail);
  }

  /** And one that is cancelled while it waits: nothing is left of either but who released the lock last. */
  lemma CallsFail() returns (actions: seq<Action>, s: State, d: Doc)
    ensures Run(actions) == Some(s) && AllOrdered(actions)
    ensures s.phase.Idle? && s.holder == None && s.lastMerge == 4 && s.returned == {} && s.deleted == {}
    ensures s.segments == map[1 := Segment(3, INVALID_XID, {d}, {})]
  {
    hide Run, AllOrdered, After, OutOf;
    d := Doc(7, 0);
    actions, s := CallFails(d);
    actions, s := Step(actions, AcquireForDelete({d.ctid}));
    actions, s := Step(actions, ReadAll(3));
    assert s.found == {1};
    ReadsIt(s.segments, d, INVALID_XID);
    actions, s := VacuumDrops(d, INVALID_XID, actions, s, {});
    actions, s := Step(actions, Fail);
    AfterIs(d, 4);
  }

  lemma AfterIs(d: Doc, x: Xid)
    ensures After(d, INVALID_XID, x, {}) == Segment(3, INVALID_XID, {d}, {}) && OutOf(d, x, {}) == {}
  {}

  /** Transaction 3 inserts and has the lock. */
  lemma OneHasLock() returns (actions: seq<Action>, s: State)
    ensures Run(actions) == Some(s) && AllOrdered(actions)
    ensures s.clock.active == {3} && s.clock.nextXid == 4 && s.clock.live.Keys == {0} && s.clock.oldest == 3
    ensures s.segments == map[1 := Segment(3, INVALID_XID, {Doc(7, 0)}, {Doc(7, 0)})] && s.ids == {1}
    ensures s.writers == map[0 := Writer(3, 0, Snapshot(3, 3, {}), map[1 := {Doc(7, 0)}])]
    ensures s.holder == Some(ByWriter(0)) && s.phase.Idle? && s.lastMerge == 3 && s.scans == map[]
  {
    hide Run, AllOrdered;
    actions, s := WriterOpens();
    actions, s := Step(actions, Insert(0, 1, {Doc(7, 0)}));
    actions, s := Step(actions, AcquireForMerge(0, 0));
    assert s.ids == {1};
  }

  /** It merges, and closes its writer. */
  lemma OneHasClosed() returns (actions: seq<Action>, s: State)
    ensures Run(actions) == Some(s) && AllOrdered(actions)
    ensures s.clock.active == {3} && s.clock.nextXid == 4 && s.clock.live.Keys == {0} && s.clock.oldest == 3
    ensures s.segments.Keys == {1, 2} && s.segments[1].xmin == s.segments[1].xmax == 3 && s.segments[2].xmax == 0
    ensures s.writers == map[] && s.holder == None && s.lastMerge == 3 && s.phase.Idle? && s.scans == map[]
  {
    hide Run, AllOrdered, AliveIn;
    actions, s := OneHasLock();
    actions, s := Step(actions, Merge(0, {1}, 2));
    actions, s := Step(actions, DropMergeLock(0));
    actions, s := Step(actions, CloseWriter(0));
    assert s.writers == map[];
  }

  /** Its snapshot released and itself at an end, the segment that it merged away is collected. */
  lemma AllIsClosed() returns (actions: seq<Action>, s: State)
    ensures Run(actions) == Some(s) && AllOrdered(actions)
    ensures s.writers == map[] && s.clock.live == map[] && s.clock.active == {} && s.clock.oldest == 4
    ensures s.segments.Keys == {2} && s.lastMerge == 3
  {
    hide Run, AllOrdered;
    actions, s := OneHasClosed();
    actions, s := Step(actions, ReleaseSnapshot(0));
    actions, s := Step(actions, Finish(3));
    assert s.clock.active == {} && s.clock.live == map[] && s.writers == map[];
    actions, s := Step(actions, CollectSegment(1, 4));
    assert s.segments.Keys == {2};
  }

  /** A writer that reads a delete file again has what is alive by then. */
  lemma WriterRereads() returns (actions: seq<Action>, s: State)
    ensures Run(actions) == Some(s) && AllOrdered(actions)
    ensures s.writers.Keys == {0} && s.writers[0].loaded == map[1 := {}]
  {
    hide Run, AllOrdered;
    actions, s := VacuumBetween(Doc(7, 0));
    actions, s := Step(actions, Reread(0, 1));
  }

  lemma ScannedEarly(d: Doc) returns (actions: seq<Action>, s: State)
    ensures Run(actions) == Some(s) && AllOrdered(actions)
    ensures s.segments == map[1 := Segment(3, INVALID_XID, {d}, {d})] && s.phase.Idle? && s.holder == None
    ensures s.vacuum == None && s.writers == map[] && s.clock.MayRemoveBelow(3) && s.clock.oldest == 3
    ensures s.clock.nextXid == 4
    ensures s.scans.Keys == {5} && !s.scans[5].pinned && s.scans[5].seen == map[1 := {d}]
  {
    hide Run, AllOrdered;
    var s0;
    actions, s0 := OneSegment(d);
    actions, s := Step(actions, TakeSnapshot(1, 4, None));
    var view := View(Snapshot(4, 4, {}), None);
    assert s == s0.(clock := s.clock) && s.clock.live == map[1 := view];
    actions, s := ScansOne(actions, s, view, false, d);
  }

  /** A scan of the one segment, under the snapshot 1. */
  lemma ScansOne(before: seq<Action>, s0: State, view: View, pin: bool, d: Doc)
    returns (actions: seq<Action>, s: State)
    requires Run(before) == Some(s0) && AllOrdered(before) && s0.scans == map[]
    requires 1 in s0.clock.live && s0.clock.live[1] == view
    requires 1 in s0.segments && s0.segments.Keys == {1} && s0.segments[1].Visible(view) && s0.segments[1].alive == {d}
    ensures Run(actions) == Some(s) && AllOrdered(actions)
    ensures s == s0.(scans := map[5 := Scan(pin, 1, Some({1}), map[1 := {d}])])
  {
    hide Run, AllOrdered;
    actions, s := Step(before, OpenScan(5, pin, 1));
    actions, s := Step(actions, LoadScan(5));
    assert VisibleIn(s0.segments, view) == {1};
    actions, s := Step(actions, OpenSegment(5, 1));
    assert s.scans == map[5 := Scan(pin, 1, Some({1}), map[1 := {d}])];
  }

  /** Without a pin: a scan loaded before the call emits what the call deleted after it has returned. */
  lemma UnpinnedScanEmits() returns (actions: seq<Action>, k: nat, d: Doc)
    ensures Run(actions).Some? && AllOrdered(actions)
    ensures var s := Run(actions).value; s.phase.Idle? && d in s.returned && CanEmit(s, k, d)
  {
    hide Run, AllOrdered, Enabled, Apply;
    var s;
    k, d := 5, Doc(7, 0);
    actions, s := ScannedEarly(d);
    actions, s := VacuumReads(d, INVALID_XID, actions, s);
    actions, s := VacuumReturns(d, actions, s, {});
    assert 1 in s.scans[5].seen && d in s.scans[5].seen[1];
  }

  /** A segment left out: after the call has returned, and before the vacuum's transaction ends, a scan pins,
      loads the segment under a snapshot that does not see the vacuum finished, and emits what was deleted. */
  lemma LeftOutSegmentEmits() returns (actions: seq<Action>, k: nat, d: Doc)
    ensures Run(actions).Some? && AllOrdered(actions)
    ensures var s := Run(actions).value;
            s.phase.Idle? && d in s.returned && k in s.scans && s.scans[k].pinned && CanEmit(s, k, d)
  {
    hide Run, AllOrdered;
    var s;
    k, d := 5, Doc(7, 0);
    actions, s := OneSegment(d);
    actions, s := VacuumReads(d, INVALID_XID, actions, s);
    actions, s := VacuumReturns(d, actions, s, {1});
    actions, s := Step(actions, TakeSnapshot(1, 4, None));
    actions, s := ScansOne(actions, s, View(Snapshot(4, 5, {4}), None), true, d);
    assert 1 in s.scans[5].seen && d in s.scans[5].seen[1];
  }

  /** A call has returned that left the segment out, and its transaction has ended. */
  lemma LeftOutOnce(d: Doc) returns (actions: seq<Action>, s: State)
    ensures Run(actions) == Some(s) && AllOrdered(actions)
    ensures OnlySegment(s.segments, d, 4) && s.leftOuts == {LeftOut(1, Segment(3, 4, {d}, {d}))}
    ensures s.phase.Idle? && s.holder == None && s.vacuum == None && s.returned == {d} && s.scans == map[]
    ensures s.writers == map[] && s.clock == Clock(5, {}, map[], 3)
  {
    hide Run, AllOrdered;
    var s0;
    actions, s := OneSegment(d);
    actions, s := VacuumReads(d, INVALID_XID, actions, s);
    actions, s0 := VacuumReturns(d, actions, s, {1});
    assert s0.clock == Clock(5, {4}, map[], 3);
    actions, s := Step(actions, Finish(4));
    assert s.clock.active == {} && s.clock.live == map[] && s.writers == map[] && s.scans == map[];
  }

  /** A second call has left the segment out again, under its own id, and waits for the pins. */
  lemma LeftOutTwice(d: Doc) returns (actions: seq<Action>, s: State)
    ensures Run(actions) == Some(s) && AllOrdered(actions)
    ensures OnlySegment(s.segments, d, 5) && LeftOut(1, Segment(3, 4, {d}, {d})) in s.leftOuts
    ensures s.phase.Dropped? && s.returned == {d} && s.scans == map[] && s.clock == Clock(6, {5}, map[], 3)
  {
    hide Run, AllOrdered;
    var s0, s1;
    actions, s0 := LeftOutOnce(d);
    actions, s1 := VacuumReads(d, 4, actions, s0);
    actions, s := VacuumDrops(d, 4, actions, s1, {1});
    assert s0.clock.Assign({}) == Clock(6, {5}, map[], 3);
  }

  /** Then a scan pins, whose snapshot sees the first vacuum finished and not the second, loads the segment
      and emits what the first call deleted, long after that has returned. */
  lemma LeftOutAgainEmits() returns (actions: seq<Action>, k: nat, d: Doc)
    ensures Run(actions).Some? && AllOrdered(actions)
    ensures var s := Run(actions).value;
            && d in s.returned && LeftOut(1, Segment(3, 4, {d}, {d})) in s.leftOuts
            && k in s.scans && s.scans[k].pinned && s.scans[k].v in s.clock.live
            && s.clock.live[s.scans[k].v].Sees(4) && CanEmit(s, k, d)
  {
    hide Run, AllOrdered;
    var s;
    k, d := 5, Doc(7, 0);
    actions, s := LeftOutTwice(d);
    actions, s := Step(actions, TakeSnapshot(1, 5, None));
    actions, s := ScansOne(actions, s, View(Snapshot(5, 6, {5}), None), true, d);
    assert 1 in s.scans[5].seen && d in s.scans[5].seen[1];
  }

  /** Transaction 4 has loaded the segment when the vacuum reads it, deletes, and returns under id 5. */
  lemma WriterLoadedEarly(d: Doc) returns (actions: seq<Action>, s: State)
    ensures Run(actions) == Some(s) && AllOrdered(actions)
    ensures s.segments == map[1 := Segment(3, INVALID_XID, {d}, {d})] && s.phase.Idle? && s.holder == None
    ensures s.vacuum == None && s.returned == {} && s.scans == map[] && s.clock.MayRemoveBelow(3) && s.clock.oldest == 3
    ensures s.clock.nextXid == 5 && s.clock.active == {4} && s.granted == map[]
    ensures s.clock.live == map[1 := View(Snapshot(4, 4, {}), Some(4))]
    ensures s.writers == map[0 := Writer(4, 1, Snapshot(4, 4, {}), map[1 := {d}])]
  {
    hide Run, AllOrdered;
    actions, s := OneSegment(d);
    actions, s := Step(actions, TakeSnapshot(1, 4, None));
    actions, s := Step(actions, Assign({1}));
    assert s.clock.live == map[1 := View(Snapshot(4, 4, {}), Some(4))];
    var loaded := map id | id in VisibleIn(s.segments, s.clock.live[1]) :: s.segments[id].alive;
    assert loaded == map[1 := {d}] by { assert VisibleIn(s.segments, s.clock.live[1]) == {1}; }
    actions, s := Step(actions, OpenWriter(0, 4, 1));
    assert s.writers[0] == Writer(4, 1, Snapshot(4, 4, {}), loaded);
    assert s.writers == map[0 := Writer(4, 1, Snapshot(4, 4, {}), map[1 := {d}])];
  }

  lemma VacuumBetween(d: Doc) returns (actions: seq<Action>, s: State)
    ensures Run(actions) == Some(s) && AllOrdered(actions)
    ensures s.segments == map[1 := Segment(3, INVALID_XID, {d}, {})] && s.phase.Idle? && s.holder == None
    ensures s.vacuum == None && s.lastMerge == 5 && s.returned == {d} && s.clock.nextXid == 6
    ensures s.clock.active == {4} && s.granted == map[]
    ensures s.clock.live == map[1 := View(Snapshot(4, 4, {}), Some(4))]
    ensures s.writers == map[0 := Writer(4, 1, Snapshot(4, 4, {}), map[1 := {d}])]
  {
    hide Run, AllOrdered;
    var s0;
    actions, s0 := WriterLoadedEarly(d);
    actions, s := VacuumReads(d, INVALID_XID, actions, s0);
    actions, s := VacuumReturns(d, actions, s, {});
    assert s.clock.live == s0.clock.live;
    actions, s := Step(actions, Finish(5));
    assert s.clock.live == s0.clock.live && s.clock.active == {4} && s.writers == s0.writers;
  }

  /** Its second writer, opened under a snapshot that sees the vacuum finished, is granted the lock. */
  lemma SecondWriterMerges(d: Doc) returns (actions: seq<Action>, s: State)
    ensures Run(actions) == Some(s) && AllOrdered(actions)
    ensures s.phase.Idle? && s.lastMerge == 4 && s.holder == None && s.returned == {d}
    ensures 1 in s.segments && 0 in s.writers && s.writers[0].x == 4 && s.writers[0].loaded == map[1 := {d}]
    ensures 1 in s.clock.live && s.clock.live[1].current == Some(4)
  {
    hide Run, AllOrdered;
    actions, s := SecondWriterOpens(d);
    actions, s := Step(actions, AcquireForMerge(9, 2));
    actions, s := Step(actions, DropMergeLock(9));
  }

  lemma SecondWriterOpens(d: Doc) returns (actions: seq<Action>, s: State)
    ensures Run(actions) == Some(s) && AllOrdered(actions)
    ensures s.phase.Idle? && s.lastMerge == 5 && s.holder == None && s.returned == {d} && s.granted == map[]
    ensures 1 in s.segments && s.writers.Keys == {0, 9}
    ensures s.writers[0].x == 4 && s.writers[0].loaded == map[1 := {d}] && s.writers[9].x == 4
    ensures s.writers[9].snap == Snapshot(4, 6, {})
    ensures s.clock.live == map[1 := View(Snapshot(4, 4, {}), Some(4)), 2 := View(Snapshot(4, 6, {}), Some(4))]
  {
    hide Run, AllOrdered;
    actions, s := VacuumBetween(d);
    actions, s := Step(actions, TakeSnapshot(2, 4, Some(4)));
    assert s.clock.active - {4} == {};
    actions, s := Step(actions, OpenWriter(9, 4, 2));
  }

  /**
   Two writers of one transaction: the one that loaded before the deletes is granted the merge lock after
   the other, because the last merge is then their own transaction's. It brings the deleted document back,
   and a pinned scan emits it.
   */
  lemma OverlappingWritersBringBack() returns (actions: seq<Action>, grant: Action, more: seq<Action>)
    ensures Run(actions).Some? && AllOrdered(actions) && grant.AcquireForMerge?
    ensures Enabled(Run(actions).value, grant) && NoGrants(more) && Leaks(actions + [grant] + more)
  {
    hide Run, AllOrdered, NoGrants, Leaks;
    var d, s := Doc(7, 0), INIT;
    actions, s := SecondWriterMerges(d);
    grant := AcquireForMerge(0, 1);
    assert d in s.writers[0].loaded[1] && d in Past(s);
    OrderedIsClean(actions);
    more := UncleanGrantLeaks(actions, grant);
  }
}
