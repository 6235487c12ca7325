/**
 Runs that show each condition on merging is needed, and what the lock and the writers come to in the end.
 */
module MergeExamples {
  import opened Wrappers
  import opened Block
  import opened Transactions
  import opened SegmentMetas
  import opened MergeRuns
  import opened MergeOrder

  lemma Step(actions: seq<Action>, a: Action) returns (longer: seq<Action>, t: State)
    requires Run(actions).Some? && Enabled(Run(actions).value, a)
    ensures longer == actions + [a] && Run(longer) == Some(t) && t == Apply(Run(actions).value, a)
    ensures AllOrdered(actions) && OrderedStep(Run(actions).value, a) ==> AllOrdered(longer)
  {
    longer := actions + [a];
    assert longer[..|longer| - 1] == actions;
    t := Apply(Run(actions).value, a);
  }

  /** A save of one new segment in the place of the old ones. */
  ghost function SaveOf(x: Xid, id: SegmentId, prev: seq<SegmentMeta>): Save {
    Save([SegmentMeta(id, 1, 0)], prev,
         map[id := map[Postings := (FileEntry(20, 1), Path(Some(id), Some(Postings), 0))]], x)
  }

  lemma SaveOfOne(x: Xid, id: SegmentId)
    ensures var save := SaveOf(x, id, []);
            save.xid == x && save.Created() == {id} && save.Modified() == {} && save.Deleted() == {}
  {
    assert Ids([SegmentMeta(id, 1, 0)][..0]) == {};
  }

  lemma SaveOfTwo(x: Xid, id: SegmentId, a: SegmentId, b: SegmentId)
    requires id != a && id != b
    ensures var save := SaveOf(x, id, [SegmentMeta(a, 1, 0), SegmentMeta(b, 1, 0)]);
            save.xid == x && save.Created() == {id} && save.Modified() == {} && save.Deleted() == {a, b}
  {
    var prev := [SegmentMeta(a, 1, 0), SegmentMeta(b, 1, 0)];
    assert prev[..1] == [SegmentMeta(a, 1, 0)];
    assert Ids(prev[..1][..0]) == {};
    assert Ids([SegmentMeta(id, 1, 0)][..0]) == {};
    assert Ids(prev) == {a, b} && Ids([SegmentMeta(id, 1, 0)]) == {id};
  }

  /** What running transactions or nobody have merged is still in the list. */
  lemma StillListed(s: State, id: SegmentId)
    requires Base(s) && id in s.written
    requires s.written[id].xmax == INVALID_XID || s.written[id].xmax in s.clock.active
    ensures id in s.disk
  {}

  /** Nothing changes for the writers but what they have loaded. */
  ghost predicate SameWriters(before: Writers, after: Writers, w: nat) {
    && after.Keys == before.Keys
    && (forall u :: u in before ==> after[u].x == before[u].x && after[u].AsView() == before[u].AsView())
    && (forall u :: u in before && u != w ==> after[u].loaded == before[u].loaded)
  }

  /** Writer `w` adds a document as segment `b`. */
  lemma InsertDoc(actions: seq<Action>, w: nat, b: SegmentId, d: Doc) returns (longer: seq<Action>, t: State)
    requires Run(actions).Some?
    requires var s := Run(actions).value; w in s.writers && b !in s.written && d !in s.inserted
    ensures Run(longer) == Some(t) && (AllOrdered(actions) ==> AllOrdered(longer))
    ensures var s := Run(actions).value;
            && t.written == s.written[b := Segment(s.writers[w].x, INVALID_XID, multiset({d}))]
            && t.clock == s.clock && t.lastMerge == s.lastMerge && t.holder == s.holder && t.granted == s.granted
            && t.inserted.Keys == s.inserted.Keys + {d}
            && t.writers == s.writers[w := s.writers[w].(loaded := s.writers[w].loaded + {b})]
  {
    hide Base, Run, AllOrdered, NotOlder, Save.After, Save.Created, Save.Modified, Save.Deleted, SaveOf;
    var s := Run(actions).value;
    BaseHolds(actions);
    DiskIsWritten(s);
    SaveOfOne(s.writers[w].x, b);
    longer, t := Step(actions, Insert(w, SaveOf(s.writers[w].x, b, []), b, {d}));
  }

  /** Writer `w` merges segments `a` and `b` into `c`. */
  lemma MergeTwo(actions: seq<Action>, w: nat, v: nat, a: SegmentId, b: SegmentId, c: SegmentId)
    returns (longer: seq<Action>, t: State)
    requires Run(actions).Some?
    requires var s := Run(actions).value;
             && w in s.writers && v in s.clock.live && s.clock.live[v] == s.writers[w].AsView()
             && s.holder == None && s.clock.live[v].Sees(s.lastMerge)
             && {a, b} <= s.writers[w].loaded && a in s.written && b in s.written && c !in s.written
             && (s.written[a].xmax == INVALID_XID || s.written[a].xmax in s.clock.active)
             && (s.written[b].xmax == INVALID_XID || s.written[b].xmax in s.clock.active)
    ensures Run(longer) == Some(t)
    ensures var s := Run(actions).value;
            var x := s.writers[w].x;
            && t.written == Merged(s.written, {a, b}, x, c)
            && t.clock == s.clock && t.lastMerge == x && t.holder == Some(w)
            && t.inserted == s.inserted && t.granted == s.granted[x := s.writers[w].snap]
            && SameWriters(s.writers, t.writers, w)
    ensures AllOrdered(actions) && OrderedStep(Run(actions).value, AcquireForMerge(w, v)) ==> AllOrdered(longer)
  {
    hide Base, Run, AllOrdered, NotOlder, Save.After, Save.Created, Save.Modified, Save.Deleted, SaveOf, Merged;
    var x := Run(actions).value.writers[w].x;
    var as2, s2 := Step(actions, AcquireForMerge(w, v));
    BaseHolds(as2);
    DiskIsWritten(s2);
    StillListed(s2, a);
    StillListed(s2, b);
    SaveOfTwo(x, c, a, b);
    longer, t := Step(as2, Merge(w, SaveOf(x, c, [SegmentMeta(a, 1, 0), SegmentMeta(b, 1, 0)]), c));
  }

  lemma MergedTwo(written: Written, a: SegmentId, b: SegmentId, x: Xid, c: SegmentId)
    requires a in written && b in written && c !in written
    ensures var after := Merged(written, {a, b}, x, c);
            && after.Keys == written.Keys + {c}
            && after[c].xmin == x && after[c].xmax == INVALID_XID
            && (forall d :: d in written[a].docs || d in written[b].docs ==> d in after[c].docs)
            && after[a] == written[a].(xmax := x) && after[b] == written[b].(xmax := x)
            && forall i :: i in written && i != a && i != b ==> after[i] == written[i]
  {
    hide DocsOf;
    DocsSplit(written, {a, b}, a);
    DocsSplit(written, {a, b}, b);
  }

  lemma FirstOpens() returns (actions: seq<Action>, s: State)
    ensures Run(actions) == Some(s) && AllOrdered(actions)
    ensures s.clock.nextXid == 4 && s.clock.active == {3} && s.clock.oldest == 3
    ensures s.clock.live == map[0 := View(Snapshot(3, 3, {}), Some(3))]
    ensures s.writers.Keys == {0} && s.writers[0].x == 3 && s.disk == map[] && s.granted == map[]
    ensures s.lastMerge == INVALID_XID && s.holder == None && s.written == map[] && s.inserted == map[]
    ensures s.writers[0].holding == 0 && s.exposed == {}
  {
    hide Run, AllOrdered;
    assert Run([]) == Some(INIT) && AllOrdered([]) by { RunOfNothing(); }
    actions, s := Step([], TakeSnapshot(0, 3, None));
    actions, s := Step(actions, Assign({0}));
    actions, s := Step(actions, OpenWriter(0, 3, 0));
  }

  lemma RunOfNothing()
    ensures Run([]) == Some(INIT) && AllOrdered([])
  {}

  /** Transaction 3 inserts document 7 as segment 1. */
  lemma FirstTransaction() returns (actions: seq<Action>, s: State)
    ensures Run(actions) == Some(s) && AllOrdered(actions)
    ensures s.clock.nextXid == 4 && s.clock.active == {} && s.clock.live == map[] && s.clock.oldest == 3
    ensures s.writers == map[] && s.lastMerge == INVALID_XID && s.holder == None && s.granted == map[]
    ensures s.written == map[1 := Segment(3, INVALID_XID, multiset({7}))] && s.inserted.Keys == {7}
  {
    hide Save.After, Save.Created, Save.Modified, Save.Deleted, Save.Acceptable, SaveOf, Run, AllOrdered;
    actions, s := FirstOpens();
    SaveOfOne(3, 1);
    actions, s := Step(actions, Insert(0, SaveOf(3, 1, []), 1, {7}));
    actions, s := Step(actions, Finish(3));
  }

  /** Transaction 4 begins. */
  lemma SecondBegins() returns (actions: seq<Action>, s: State)
    ensures Run(actions) == Some(s) && AllOrdered(actions)
    ensures s.clock.nextXid == 5 && s.clock.active == {4} && s.clock.oldest == 3
    ensures s.clock.live == map[1 := View(Snapshot(4, 4, {}), Some(4))]
    ensures s.writers == map[] && s.lastMerge == INVALID_XID && s.holder == None && s.granted == map[]
    ensures s.written == map[1 := Segment(3, INVALID_XID, multiset({7}))] && s.inserted.Keys == {7}
  {
    hide Run, AllOrdered;
    actions, s := FirstTransaction();
    actions, s := Step(actions, TakeSnapshot(1, 4, None));
    actions, s := Step(actions, Assign({1}));
  }

  /** A view in use loads what it shows. */
  lemma LoadsWhatShows(s: State, v: nat, id: SegmentId)
    requires Base(s) && v in s.clock.live && id in s.written && Shows(s.written[id], s.clock.live[v])
    ensures id in VisibleIn(s.disk, s.clock.live[v])
  {
    LiveIsAbove(s.clock, v);
    FadingShowsToNobody(s, s.clock.live[v], id);
  }

  // ---------------------------------------------------------------------------------------------
  // Two writers of one transaction
  // ---------------------------------------------------------------------------------------------

  lemma TwoWriters() returns (actions: seq<Action>, s: State)
    ensures Run(actions) == Some(s)
    ensures s.clock.nextXid == 5 && s.clock.active == {4}
    ensures s.clock.live == map[1 := View(Snapshot(4, 4, {}), Some(4))]
    ensures s.writers.Keys == {1, 2} && s.lastMerge == INVALID_XID && s.holder == None
    ensures forall w :: w in s.writers ==>
      s.writers[w].x == 4 && s.writers[w].AsView() == s.clock.live[1] && 1 in s.writers[w].loaded
    ensures s.written == map[1 := Segment(3, INVALID_XID, multiset({7}))] && s.inserted.Keys == {7}
  {
    hide Run, Base, AllOrdered;
    actions, s := SecondBegins();
    BaseHolds(actions);
    LoadsWhatShows(s, 1, 1);
    actions, s := Step(actions, OpenWriter(1, 4, 1));
    actions, s := Step(actions, OpenWriter(2, 4, 1));
  }

  lemma OneHasInserted() returns (actions: seq<Action>, s: State)
    ensures Run(actions) == Some(s)
    ensures s.clock.nextXid == 5 && s.clock.active == {4}
    ensures s.clock.live == map[1 := View(Snapshot(4, 4, {}), Some(4))]
    ensures s.writers.Keys == {1, 2} && s.lastMerge == INVALID_XID && s.holder == None
    ensures forall w :: w in s.writers ==>
      s.writers[w].x == 4 && s.writers[w].AsView() == s.clock.live[1] && 1 in s.writers[w].loaded
    ensures 2 in s.writers[1].loaded && s.inserted.Keys == {7, 8}
    ensures s.written == map[1 := Segment(3, INVALID_XID, multiset({7})), 2 := Segment(4, INVALID_XID, multiset({8}))]
  {
    hide Run;
    actions, s := TwoWriters();
    actions, s := InsertDoc(actions, 1, 2, 8);
  }

  lemma OneHasMerged() returns (actions: seq<Action>, s: State)
    ensures Run(actions) == Some(s)
    ensures s.clock.nextXid == 5 && s.clock.active == {4}
    ensures s.clock.live == map[1 := View(Snapshot(4, 4, {}), Some(4))]
    ensures {1, 2} <= s.writers.Keys && s.lastMerge == 4 && s.holder == Some(1)
    ensures forall w :: w == 1 || w == 2 ==> s.writers[w].x == 4 && s.writers[w].AsView() == s.clock.live[1]
    ensures 1 in s.writers[2].loaded
    ensures s.written.Keys == {1, 2, 3} && s.inserted.Keys == {7, 8}
    ensures s.written[1] == Segment(3, 4, multiset({7}))
    ensures s.written[3].xmin == 4 && s.written[3].xmax == INVALID_XID && 7 in s.written[3].docs
  {
    hide Run, DocsOf, Merged, AllOrdered, NotOlder;
    var before;
    actions, before := OneHasInserted();
    MergedTwo(before.written, 1, 2, 4, 3);
    actions, s := MergeTwo(actions, 1, 1, 1, 2, 3);
  }

  lemma OneHasDropped() returns (actions: seq<Action>, s: State)
    ensures Run(actions) == Some(s)
    ensures s.clock.nextXid == 5 && s.clock.active == {4}
    ensures s.clock.live == map[1 := View(Snapshot(4, 4, {}), Some(4))]
    ensures 2 in s.writers && s.lastMerge == 4 && s.holder == None
    ensures s.writers[2].x == 4 && s.writers[2].AsView() == s.clock.live[1] && {1, 4} <= s.writers[2].loaded
    ensures s.written.Keys == {1, 2, 3, 4} && 7 in s.inserted
    ensures s.written[1] == Segment(3, 4, multiset({7})) && s.written[4] == Segment(4, INVALID_XID, multiset({9}))
    ensures s.written[3].xmin == 4 && s.written[3].xmax == INVALID_XID && 7 in s.written[3].docs
  {
    hide Run, AllOrdered;
    actions, s := OneHasMerged();
    actions, s := Step(actions, DropMergeLock(1));
    actions, s := InsertDoc(actions, 2, 4, 9);
  }

  /**
   Two writers of one transaction open at once: the second is granted the lock, because the last merge is
   its own transaction's, and merges a segment the first has merged.  Document 7 is then in two segments
   for everybody.
   */
  lemma OverlappingWritersDouble() returns (actions: seq<Action>, d: Doc, s: State)
    ensures Run(actions) == Some(s) && !AllFresh(actions) && d in s.inserted
    ensures exists a, b :: a != b && a in Holders(s, d, Everyone(s)) && b in Holders(s, d, Everyone(s))
  {
    hide Base, Run, AllFresh, AllOrdered, DocsOf, NotOlder, Merged, EveryDocOnce;
    var before;
    actions, before := OneHasDropped();
    MergedTwo(before.written, 1, 4, 4, 5);
    actions, s := MergeTwo(actions, 2, 1, 1, 4, 5);
    d := 7;
    BaseHolds(actions);
    EveryoneIsAbove(s);
    FadingShowsToNobody(s, Everyone(s), 3);
    FadingShowsToNobody(s, Everyone(s), 5);
    assert 3 in Holders(s, 7, Everyone(s)) && 5 in Holders(s, 7, Everyone(s));
    NotFresh(s, actions, 7, 3, 5);
  }

  lemma NotFresh(s: State, actions: seq<Action>, d: Doc, a: SegmentId, b: SegmentId)
    requires Run(actions) == Some(s)
    requires d in s.inserted && a != b && a in Holders(s, d, Everyone(s)) && b in Holders(s, d, Everyone(s))
    ensures !AllFresh(actions)
  {
    hide FreshInv, Holders, Run, AllFresh, Proper, SeesOwnMerges;
    assert !Once(s, d, Everyone(s), Everyone(s).Sees(s.inserted[d]));
    if AllFresh(actions) {
      FreshHolds(actions);
      FreshIsBase(s);
      EveryoneIsProper(s);
      FreshOnceIff(s, Everyone(s));
      HeldIsOnLine(s, d, a);
    }
  }

  lemma HeldIsOnLine(s: State, d: Doc, a: SegmentId)
    requires FreshInv(s) && a in Holders(s, d, Everyone(s))
    ensures d in s.line
  {}

  // ---------------------------------------------------------------------------------------------
  // An insert beside somebody who has the lock
  // ---------------------------------------------------------------------------------------------

  lemma TwoOpen() returns (actions: seq<Action>, s: State)
    ensures Run(actions) == Some(s) && AllOrdered(actions)
    ensures s.writers.Keys == {0, 1} && s.writers[0].x == 3 && s.writers[1].x == 4 && s.holder == None
    ensures s.clock.active == {3, 4} && s.clock.nextXid == 5 && s.clock.oldest == 3
    ensures s.clock.live.Keys == {0, 1} && s.clock.live[1] == View(Snapshot(3, 4, {3}), Some(4))
    ensures s.writers[0].holding == 0 && s.writers[1].holding == 1
    ensures s.clock.live[0].current == Some(3) && s.writers[1].snap == Snapshot(3, 4, {3}) && !s.writers[1].overtaken
    ensures s.exposed == {} && s.inserted == map[] && s.lastMerge == INVALID_XID && s.granted == map[]
  {
    hide Run, AllOrdered;
    actions, s := FirstOpens();
    actions, s := Step(actions, TakeSnapshot(1, 3, None));
    actions, s := Step(actions, Assign({1}));
    assert s.clock.live.Keys == {0, 1} && s.clock.active == {3, 4};
    actions, s := Step(actions, OpenWriter(1, 4, 1));
    assert s.writers.Keys == {0, 1};
  }

  /** The second of two writers has the lock: the first is exposed. */
  lemma OtherHasLock() returns (actions: seq<Action>, s: State)
    ensures Run(actions) == Some(s) && AllOrdered(actions)
    ensures s.writers.Keys == {0, 1} && s.writers[0].x == 3 && s.writers[1].x == 4 && s.holder == Some(1)
    ensures s.clock.active == {3, 4} && s.clock.nextXid == 5 && s.clock.oldest == 3
    ensures s.clock.live.Keys == {0, 1} && s.clock.live[0].current == Some(3) && s.clock.live[1].current == Some(4)
    ensures s.writers[0].holding == 0 && s.writers[1].holding == 1
    ensures 0 in s.exposed && 1 !in s.exposed && s.inserted == map[]
  {
    hide Run, AllOrdered;
    actions, s := TwoOpen();
    actions, s := Step(actions, AcquireForMerge(1, 1));
  }

  /**
   The lock granted in order, every merge fresh, and still a document that its transaction inserted is in no
   segment for anybody: its entry went onto a page that a collection had emptied.
   */
  lemma InsertIsLost() returns (actions: seq<Action>, d: Doc, s: State)
    ensures Run(actions) == Some(s) && AllOrdered(actions) && AllFresh(actions) && d in s.inserted
    ensures forall view: View :: Holders(s, d, view) == {}
  {
    hide Base, Run, AllOrdered, AllFresh, Holders;
    actions, s := OtherHasLock();
    actions, s := Step(actions, LoseInsert(0, {5}));
    d := 5;
    OrderedIsFresh(actions);
    BaseHolds(actions);
    assert !AllKept(actions) by { assert actions[|actions| - 1].LoseInsert?; }
    d := LostRunMisses(actions);
    MissingIsUnseen(s, d);
  }

  /** Another transaction's end leaves the lock with its holder. */
  lemma OtherHasEnded() returns (actions: seq<Action>, s: State)
    ensures Run(actions) == Some(s) && s.holder == Some(1) && 1 !in s.exposed
    ensures s.clock.active == {4} && s.clock.nextXid == 5 && s.clock.oldest == 3 && s.clock.live.Keys == {1}
    ensures s.writers.Keys == {1} && s.writers[1].x == 4
  {
    hide Run, AllOrdered;
    actions, s := OtherHasLock();
    actions, s := Step(actions, Finish(3));
    assert s.clock.active == {4} && s.clock.live.Keys == {1} && s.writers.Keys == {1};
  }

  /** The holder's own writer is not exposed, but one that another transaction opens meanwhile is. */
  lemma OnlyOthersAreExposed() returns (actions: seq<Action>, s: State)
    ensures Run(actions) == Some(s) && s.holder == Some(1) && s.writers.Keys == {1, 2}
    ensures s.writers[1].x == 4 && 1 !in s.exposed && s.writers[2].x == 5 && 2 in s.exposed
  {
    hide Run, AllOrdered;
    actions, s := OtherHasEnded();
    actions, s := Step(actions, TakeSnapshot(2, 4, None));
    actions, s := Step(actions, Assign({2}));
    actions, s := Step(actions, OpenWriter(2, 5, 2));
  }

  /** When all is done nothing is left but the entries. */
  lemma AllIsClosed() returns (actions: seq<Action>, s: State)
    ensures Run(actions) == Some(s) && s.writers == map[] && s.clock.live == map[] && s.clock.active == {3}
    ensures s.holder == None && s.lastMerge == 3
  {
    hide Run, AllOrdered;
    actions, s := FirstOpens();
    actions, s := Step(actions, AcquireForMerge(0, 0));
    actions, s := Step(actions, DropMergeLock(0));
    actions, s := Step(actions, CloseWriter(0));
    actions, s := Step(actions, ReleaseSnapshot(0));
    assert s.writers == map[] && s.clock.live == map[];
  }

  // ---------------------------------------------------------------------------------------------
  // An older snapshot of a transaction that merges
  // ---------------------------------------------------------------------------------------------

  lemma ThirdBegins() returns (actions: seq<Action>, s: State)
    ensures Run(actions) == Some(s) && AllOrdered(actions)
    ensures s.clock.nextXid == 6 && s.clock.active == {4, 5} && s.clock.oldest == 3
    ensures s.clock.live == map[1 := View(Snapshot(4, 4, {}), Some(4)), 2 := View(Snapshot(4, 5, {4}), Some(5))]
    ensures s.writers == map[] && s.lastMerge == INVALID_XID && s.holder == None && s.granted == map[]
    ensures s.written == map[1 := Segment(3, INVALID_XID, multiset({7}))] && s.inserted.Keys == {7}
  {
    hide Run, AllOrdered;
    actions, s := SecondBegins();
    actions, s := Step(actions, TakeSnapshot(2, 4, None));
    assert s.clock.live[2].snap.xip == {4};
    actions, s := Step(actions, Assign({2}));
  }

  /** Transaction 5 has loaded what 3 inserted, and added a document. */
  lemma ThirdInserts() returns (actions: seq<Action>, s: State)
    ensures Run(actions) == Some(s) && AllOrdered(actions)
    ensures s.clock.nextXid == 6 && s.clock.active == {4, 5} && s.clock.oldest == 3
    ensures s.clock.live == map[1 := View(Snapshot(4, 4, {}), Some(4)), 2 := View(Snapshot(4, 5, {4}), Some(5))]
    ensures s.writers.Keys == {2} && s.lastMerge == INVALID_XID && s.holder == None && s.granted == map[]
    ensures s.writers[2].x == 5 && s.writers[2].AsView() == s.clock.live[2] && !s.writers[2].overtaken
    ensures {1, 2} <= s.writers[2].loaded && s.inserted.Keys == {7, 8}
    ensures s.written == map[1 := Segment(3, INVALID_XID, multiset({7})), 2 := Segment(5, INVALID_XID, multiset({8}))]
  {
    hide Run, AllOrdered, Base;
    actions, s := ThirdBegins();
    BaseHolds(actions);
    LoadsWhatShows(s, 2, 1);
    actions, s := Step(actions, OpenWriter(2, 5, 2));
    actions, s := InsertDoc(actions, 2, 2, 8);
  }

  lemma ThirdMerges() returns (actions: seq<Action>, s: State)
    ensures Run(actions) == Some(s) && AllOrdered(actions)
    ensures s.clock.nextXid == 6 && s.clock.active == {4, 5} && s.clock.oldest == 3
    ensures s.clock.live == map[1 := View(Snapshot(4, 4, {}), Some(4)), 2 := View(Snapshot(4, 5, {4}), Some(5))]
    ensures s.writers.Keys == {2} && s.writers[2].x == 5 && s.lastMerge == 5 && s.holder == Some(2)
    ensures s.granted.Keys == {5} && s.inserted.Keys == {7, 8} && s.written.Keys == {1, 2, 3}
    ensures s.written[1] == Segment(3, 5, multiset({7}))
    ensures s.written[3].xmin == 5 && s.written[3].xmax == INVALID_XID && 7 in s.written[3].docs
  {
    hide Run, AllOrdered, DocsOf, Merged;
    var before;
    actions, before := ThirdInserts();
    MergedTwo(before.written, 1, 2, 5, 3);
    actions, s := MergeTwo(actions, 2, 2, 1, 2, 3);
  }

  lemma ThirdEnds() returns (actions: seq<Action>, s: State)
    ensures Run(actions) == Some(s) && AllOrdered(actions)
    ensures s.clock.nextXid == 6 && s.clock.active == {4} && s.clock.oldest == 3
    ensures s.clock.live == map[1 := View(Snapshot(4, 4, {}), Some(4))]
    ensures s.writers.Keys == {} && s.lastMerge == 5 && s.holder == None && s.granted.Keys == {5}
    ensures s.inserted.Keys == {7, 8} && s.written.Keys == {1, 2, 3}
    ensures s.written[1] == Segment(3, 5, multiset({7}))
    ensures s.written[3].xmin == 5 && s.written[3].xmax == INVALID_XID && 7 in s.written[3].docs
  {
    hide Run, AllOrdered;
    actions, s := ThirdMerges();
    actions, s := Step(actions, DropMergeLock(2));
    actions, s := Step(actions, Finish(5));
  }

  /** Transaction 4 takes a new snapshot and opens a writer under it. */
  lemma SecondWrites() returns (actions: seq<Action>, s: State)
    ensures Run(actions) == Some(s) && AllOrdered(actions)
    ensures s.clock.nextXid == 6 && s.clock.active == {4} && s.clock.oldest == 3
    ensures s.clock.live.Keys == {1, 3} && s.clock.live[1] == View(Snapshot(4, 4, {}), Some(4))
    ensures s.clock.live[3].current == Some(4) && s.clock.live[3].Sees(5) && s.clock.live[3].Sees(4)
    ensures s.writers.Keys == {3} && s.writers[3].x == 4 && s.writers[3].AsView() == s.clock.live[3]
    ensures s.lastMerge == 5 && s.holder == None && s.granted.Keys == {5} && !s.writers[3].overtaken
    ensures 3 in s.writers[3].loaded && 7 in s.inserted && s.written.Keys == {1, 2, 3} && s.inserted.Keys == {7, 8}
    ensures s.written[1] == Segment(3, 5, multiset({7}))
    ensures s.written[3].xmin == 5 && s.written[3].xmax == INVALID_XID && 7 in s.written[3].docs
  {
    hide Run, AllOrdered, Base;
    actions, s := ThirdEnds();
    actions, s := Step(actions, TakeSnapshot(3, 4, Some(4)));
    BaseHolds(actions);
    LoadsWhatShows(s, 3, 3);
    actions, s := Step(actions, OpenWriter(3, 4, 3));
  }

  /**
   An ordered run, and a snapshot older than the one its transaction merges under: another merged document
   7 after that snapshot, the transaction merged that merge, and the snapshot sees document 7 twice.
   */
  lemma OldSnapshotSeesTwice() returns (actions: seq<Action>, v: nat, d: Doc, s: State)
    ensures Run(actions) == Some(s) && AllOrdered(actions) && v in s.clock.live && d in s.inserted
    ensures exists a, b :: a != b && a in Holders(s, d, s.clock.live[v]) && b in Holders(s, d, s.clock.live[v])
  {
    hide Run, AllOrdered, Base, DocsOf, Merged;
    var before;
    actions, before := SecondWrites();
    actions, before := InsertDoc(actions, 3, 4, 9);
    MergedTwo(before.written, 3, 4, 4, 5);
    actions, s := MergeTwo(actions, 3, 3, 3, 4, 5);
    v, d := 1, 7;
    BaseHolds(actions);
    BaseIsClocked(s);
    LiveIsAbove(s.clock, 1);
    FadingShowsToNobody(s, s.clock.live[1], 1);
    FadingShowsToNobody(s, s.clock.live[1], 5);
    assert 1 in Holders(s, 7, s.clock.live[1]) && 5 in Holders(s, 7, s.clock.live[1]);
  }
}
