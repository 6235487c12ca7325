/**
 Runs of the list in which an entry is lost, and in which an entry is loaded twice.
 */
module ListExamples {
  import opened Wrappers
  import opened Block
  import opened Storage
  import opened Transactions
  import opened LinkedItems
  import GarbageCollection
  import opened ListRuns
  import opened ListResults

  lemma Step(actions: seq<Action>, a: Action) returns (longer: seq<Action>, t: State)
    requires Run(actions).Some? && Enabled(Run(actions).value, a)
    ensures longer == actions + [a] && Run(longer) == Some(t) && t == Apply(Run(actions).value, a)
  {
    longer := actions + [a];
    assert longer[..|longer| - 1] == actions;
    t := Apply(Run(actions).value, a);
  }

  // ---------------------------------------------------------------------------------------------
  // A full start page
  // ---------------------------------------------------------------------------------------------

  /** An entry with one file. */
  function Plain(id: SegmentId, x: Xid): SegmentMetaEntry {
    SegmentMetaEntry(id, 1, x, INVALID_XID, Some(FileEntry(20, 1)), None, None, None, None, None, None, None)
  }

  ghost function Plains(n: nat): Items {
    if n == 0 then [] else Plains(n - 1) + [Plain(n - 1, 3)]
  }

  lemma PlainCost(id: SegmentId, x: Xid)
    ensures ItemCost(Plain(id, x)) == 60
  {}

  lemma {:induction false} PlainsUse(n: nat)
    ensures |Plains(n)| == n && Used(Plains(n)) == 60 * n
    ensures forall i :: 0 <= i < n ==> Plains(n)[i] == Plain(i, 3)
  {
    if n > 0 {
      PlainsUse(n - 1);
      PlainCost(n - 1, 3);
      assert Plains(n)[..n - 1] == Plains(n - 1);
    }
  }

  /** The page takes 136 of them, and has no room then. */
  lemma RoomFor(n: nat, e: SegmentMetaEntry)
    requires 60 <= ItemCost(e)
    ensures n < 136 && ItemCost(e) == 60 ==> AppendItem(Plains(n), e) == Some(Plains(n) + [e])
    ensures n == 136 ==> AppendItem(Plains(n), e) == None
  {
    PlainsUse(n);
    assert (Plains(n) + [e])[..n] == Plains(n);
  }

  ghost function Numbers(n: nat): (ids: set<SegmentId>)
    ensures forall i: SegmentId :: i in ids <==> i < n
  {
    if n == 0 then {} else Numbers(n - 1) + {n - 1}
  }

  /** Transaction 3 has put `n` entries on the start page. */
  ghost function Filled(n: nat): State {
    INIT.(clock := START.(nextXid := 4, active := {3}), pages := map[FIRST := FreshPage.(items := Plains(n))],
          entries := map i | i in Numbers(n) :: Plain(i, 3), place := map i | i in Numbers(n) :: FIRST,
          ids := Numbers(n))
  }

  lemma {:induction false} Fill(n: nat) returns (actions: seq<Action>)
    requires n <= 136
    ensures Run(actions) == Some(Filled(n))
  {
    hide Run, Filled;
    if n == 0 {
      actions := NothingFilled();
    } else {
      actions := Fill(n - 1);
      actions := FillOne(n, actions);
    }
  }

  lemma NothingFilled() returns (actions: seq<Action>)
    ensures Run(actions) == Some(Filled(0))
  {
    hide Run, AppendItem;
    RunOfNothing();
    var s;
    actions, s := Step([], Assign({}));
    assert s.clock.live == map[] && s.clock.active == {3};
    assert s == Filled(0);
  }

  lemma FillOne(n: nat, before: seq<Action>) returns (actions: seq<Action>)
    requires 0 < n <= 136 && Run(before) == Some(Filled(n - 1))
    ensures Run(actions) == Some(Filled(n))
  {
    hide Run, Plains, AppendItem, CanReuse, CanClean, CanRelink, CanRead, GoesAstray, Noting;
    PlainCost(n - 1, 3);
    RoomFor(n - 1, Plain(n - 1, 3));
    var s;
    actions, s := Step(before, StartAppend(0, 3, Plain(n - 1, 3)));
    actions, s := Step(actions, Append(0, None));
    FilledOne(n, s);
  }

  lemma FilledOne(n: nat, s: State)
    requires 0 < n
    requires var t := Filled(n - 1);
             s == t.(pages := WithItems(t.pages, FIRST, Plains(n - 1) + [Plain(n - 1, 3)]),
                     entries := t.entries[n - 1 := Plain(n - 1, 3)], place := t.place[n - 1 := FIRST],
                     ids := t.ids + {n - 1}, appenders := s.appenders)
    requires s.appenders == map[]
    ensures s == Filled(n)
  {
    assert Numbers(n) == Numbers(n - 1) + {n - 1};
    assert s.pages == Filled(n).pages;
    assert s.entries == Filled(n).entries;
    assert s.place == Filled(n).place;
  }

  lemma RunOfNothing()
    ensures Run([]) == Some(INIT)
  {}

  const TWO_PAGES := Order({FIRST, 8}, {}, {}, {}, {}, map[FIRST := 0, 8 := 1], 2)

  ghost function PagesOf(second: Items): Pages {
    map[FIRST := FreshPage.(items := Plains(136), next := 8), 8 := FreshPage.(items := second)]
  }

  /** And there is a second page, for entry 136. */
  lemma SecondIsMade() returns (actions: seq<Action>, s: State)
    ensures Run(actions) == Some(s)
    ensures s == Filled(136).(pages := PagesOf([]), o := TWO_PAGES, ids := Numbers(137),
                              appenders := map[0 := Appender(3, Plain(136, 3), 8, None)])
  {
    hide Run, Plains, AppendItem, Numbers;
    actions := Fill(136);
    PlainCost(136, 3);
    RoomFor(136, Plain(136, 3));
    actions, s := Step(actions, StartAppend(0, 3, Plain(136, 3)));
    actions, s := Step(actions, Extend(0, 8));
    assert Numbers(137) == Numbers(136) + {136};
    assert s.pages == PagesOf([]);
    assert s.o == TWO_PAGES;
  }

  lemma AppendsOne(pages: Pages, e: SegmentMetaEntry)
    requires pages == PagesOf([])
    ensures WithItems(pages, 8, pages[8].items + [e]) == PagesOf([e])
  {
    assert [] + [e] == [e];
  }

  lemma SecondPage() returns (actions: seq<Action>, s: State)
    ensures Run(actions) == Some(s)
    ensures s == Filled(136).(pages := PagesOf([Plain(136, 3)]), o := TWO_PAGES, ids := Numbers(137),
                              entries := s.entries, place := s.place)
    ensures s.place.Keys == s.entries.Keys == Numbers(137) && s.place[136] == 8 && s.entries[136] == Plain(136, 3)
    ensures forall i :: i in Numbers(136) ==> s.place[i] == FIRST && s.entries[i] == Plain(i, 3)
  {
    hide Run, Plains, AppendItem;
    actions, s := SecondIsMade();
    PlainCost(136, 3);
    RoomFor(0, Plain(136, 3));
    PlainsUse(0);
    assert Plains(0) == [];
    hide Numbers;
    AppendsOne(s.pages, Plain(136, 3));
    actions, s := Step(actions, Append(0, None));
    assert s.appenders == map[];
  }

  // ---------------------------------------------------------------------------------------------
  // A lost entry
  // ---------------------------------------------------------------------------------------------

  const DEAD := Plain(136, 3).(xmax := 4)

  lemma FourthBegins() returns (actions: seq<Action>, s: State)
    ensures Run(actions) == Some(s)
    ensures s == INIT.(clock := START.(nextXid := 5, active := {3, 4}), pages := PagesOf([Plain(136, 3)]),
                       o := TWO_PAGES, ids := Numbers(137), entries := s.entries, place := s.place)
    ensures s.place.Keys == s.entries.Keys == Numbers(137)
    ensures forall i :: i in Numbers(136) ==> s.place[i] == FIRST && s.entries[i] == Plain(i, 3)
  {
    hide Run, Plains, Numbers, PagesOf, CanReuse, CanClean, CanRelink, CanRead, GoesAstray, Noting, Held;
    actions, s := SecondPage();
    actions, s := Step(actions, Assign({}));
    assert s.clock.active == {3, 4} && s.clock.live == map[];
  }

  /** Transaction 4 has deleted what is on the second page. */
  lemma SecondIsDeleted() returns (actions: seq<Action>, s: State)
    ensures Run(actions) == Some(s)
    ensures s == INIT.(clock := START.(nextXid := 5, active := {3, 4}), pages := PagesOf([DEAD]), o := TWO_PAGES,
                       ids := Numbers(137), entries := s.entries, place := s.place)
    ensures s.place.Keys == s.entries.Keys == Numbers(137)
    ensures forall i :: i in Numbers(136) ==> s.place[i] == FIRST && s.entries[i] == Plain(i, 3)
  {
    hide Run, Plains, PagesOf, ReplaceItem, WithItems, CanReuse, CanClean, CanRelink, CanRead, GoesAstray, Noting;
    actions, s := FourthBegins();
    DeadFits(s.pages);
    Has136();
    hide Numbers;
    actions, s := Step(actions, Update(4, 8, 0, DEAD));
  }

  lemma Has136()
    ensures 136 in Numbers(137) && 136 !in Numbers(136)
  {}

  lemma DeadFits(pages: Pages)
    requires pages == PagesOf([Plain(136, 3)])
    ensures 8 in pages && pages[8].Page? && |pages[8].items| == 1 && Replaces(pages[8].items[0], DEAD, 4)
    ensures ReplaceItem(pages[8].items, 0, DEAD).Some?
    ensures WithItems(pages, 8, pages[8].items[0 := DEAD]) == PagesOf([DEAD])
  {
    hide Plains;
    assert ItemCost(DEAD) <= ItemCost(Plain(136, 3));
    assert [Plain(136, 3)][0 := DEAD] == [DEAD];
  }

  /** Everyone has finished. */
  lemma SecondIsDead() returns (actions: seq<Action>, s: State)
    ensures Run(actions) == Some(s)
    ensures s == INIT.(clock := START.(nextXid := 5), pages := PagesOf([DEAD]), o := TWO_PAGES,
                       ids := Numbers(137), entries := s.entries, place := s.place)
    ensures s.place.Keys == s.entries.Keys == Numbers(137)
    ensures forall i :: i in Numbers(136) ==> s.place[i] == FIRST && s.entries[i] == Plain(i, 3)
  {
    hide Run, Plains, Numbers, PagesOf;
    actions, s := SecondIsDeleted();
    actions, s := Step(actions, Finish(3));
    actions, s := Step(actions, Finish(4));
    assert s.clock.active == {} && s.clock.live == map[] && s.readers == map[];
  }

  lemma {:induction false} KeepsPlains(n: nat, env: Env)
    requires env.freezeLimit == 3
    ensures GarbageCollection.Kept(Plains(n), env) == Plains(n)
  {
    if n > 0 {
      PlainsUse(n);
      KeepsPlains(n - 1, env);
      assert Plains(n)[..n - 1] == Plains(n - 1);
      assert Plain(n - 1, 3).Freeze(3) == Plain(n - 1, 3);
    }
  }

  const ENV := GarbageCollection.Env(Snapshot(5, 5, {}), 5, 3)

  /** A collection by transaction 5 begins. */
  lemma CollectionBegins() returns (actions: seq<Action>, s: State)
    ensures Run(actions) == Some(s) && s.clock.active == {5} && s.clock.nextXid == 6 && s.clock.live == map[]
    ensures s.pages == PagesOf([DEAD]) && s.o == TWO_PAGES
    ensures s.collector == Some(Collector(5, ENV, FIRST, FIRST, None))
    ensures s.appenders == map[] && s.readers == map[] && s.ids == Numbers(137)
  {
    hide Run, Numbers, PagesOf;
    actions, s := SecondIsDead();
    actions, s := Step(actions, Assign({}));
    assert s.clock.live == map[] && s.clock.active == {5};
    actions, s := Step(actions, BeginCollect(5, ENV));
  }

  /** It has cleaned the start page. */
  lemma StartIsClean() returns (actions: seq<Action>, s: State)
    ensures Run(actions) == Some(s) && s.clock.active == {5} && s.clock.nextXid == 6 && s.clock.live == map[]
    ensures s.pages == PagesOf([DEAD]) && s.o == TWO_PAGES
    ensures s.collector == Some(Collector(5, ENV, 8, FIRST, None))
    ensures s.appenders == map[] && s.readers == map[] && s.ids == Numbers(137)
  {
    hide Run, Plains, GarbageCollection.Kept, KeptEntries, Numbers;
    actions, s := CollectionBegins();
    KeepsPlains(136, ENV);
    PlainsUse(136);
    actions, s := Step(actions, CleanPage);
    assert s.pages == PagesOf([DEAD]);
  }

  /** It has emptied and marked the second page, and transaction 6 is there. */
  lemma SecondIsMarked() returns (actions: seq<Action>, s: State)
    ensures Run(actions) == Some(s) && s.clock.active == {5, 6} && s.clock.live == map[]
    ensures s.pages == PagesOf([])[8 := FreshPage.(xmax := 6)]
    ensures s.collector == Some(Collector(5, ENV, INVALID_BLOCK, FIRST, Some(INVALID_BLOCK)))
    ensures s.appenders == map[] && s.readers == map[] && s.ids == Numbers(137) && s.o.live == {FIRST}
    ensures s.o.hanging == {}
  {
    hide Run, Plains, KeptEntries, Numbers;
    actions, s := StartIsClean();
    DeadIsRemoved();
    hide GarbageCollection.Kept;
    actions, s := Step(actions, CleanPage);
    assert s.pages == PagesOf([])[8 := FreshPage.(xmax := 6)];
    assert s.o.live == {FIRST};
    actions, s := Step(actions, Assign({}));
    assert s.clock.live == map[] && s.clock.active == {5, 6};
  }

  lemma DeadIsRemoved()
    ensures GarbageCollection.Kept([DEAD], ENV) == []
  {
    var items := [DEAD];
    assert items[..0] == [];
    assert GarbageCollection.Kept(items, ENV)
        == GarbageCollection.Kept(items[..0], ENV) + GarbageCollection.KeptOne(items[0], ENV);
  }

  lemma EntryStarts() returns (actions: seq<Action>, s: State)
    ensures Run(actions) == Some(s) && s.clock.active == {5, 6} && s.clock.live == map[] && s.readers == map[]
    ensures s.appenders == map[0 := Appender(6, Plain(137, 6), FIRST, None)]
    ensures s.collector == Some(Collector(5, ENV, INVALID_BLOCK, FIRST, Some(INVALID_BLOCK)))
    ensures s.pages == PagesOf([])[8 := FreshPage.(xmax := 6)] && 137 in s.ids
  {
    hide Run, Plains, AppendItem, Numbers, PagesOf;
    actions, s := SecondIsMarked();
    assert 137 !in s.ids;
    actions, s := Step(actions, StartAppend(0, 6, Plain(137, 6)));
  }

  lemma EntryComes() returns (actions: seq<Action>, s: State)
    ensures Run(actions) == Some(s) && s.clock.active == {5, 6} && s.clock.live == map[] && s.readers == map[]
    ensures s.appenders == map[0 := Appender(6, Plain(137, 6), 8, None)] && HasRoom(s, 0)
    ensures s.collector == Some(Collector(5, ENV, INVALID_BLOCK, FIRST, Some(INVALID_BLOCK)))
    ensures s.pages == PagesOf([])[8 := FreshPage.(xmax := 6)] && 137 in s.ids
  {
    hide Run, Plains, AppendItem;
    actions, s := EntryStarts();
    PlainCost(137, 6);
    RoomFor(136, Plain(137, 6));
    RoomFor(0, Plain(137, 6));
    PlainsUse(0);
    assert Plains(0) == [];
    actions, s := Step(actions, Advance(0));
    assert s.appenders == map[0 := Appender(6, Plain(137, 6), 8, None)];
  }

  lemma CollectionEnds(before: seq<Action>, s0: State) returns (actions: seq<Action>, s: State)
    requires Run(before) == Some(s0) && s0.appenders == map[] && s0.readers == map[] && s0.clock.active == {5, 6}
    requires s0.collector == Some(Collector(5, ENV, INVALID_BLOCK, FIRST, Some(INVALID_BLOCK)))
    requires FIRST in s0.pages && s0.pages[FIRST].Page? && s0.clock.live == map[]
    ensures actions == before + [ListRuns.Relink, EndCollect, Finish(5), Finish(6)] && Run(actions) == Some(s)
    ensures s.collector == None && s.appenders == map[] && s.clock.active == {} && s.removed == s0.removed
    ensures s.ids == s0.ids
  {
    hide Run, Order.Relink;
    actions, s := Step(before, ListRuns.Relink);
    actions, s := Step(actions, EndCollect);
    actions, s := Step(actions, Finish(5));
    actions, s := Step(actions, Finish(6));
    assert s.clock.active == {};
  }

  /**
   The collection marks the last page, an insert that has found the page before it full appends to it, and
   the collection passes over it: once all is over, the entry of a finished transaction is not on the list.
   */
  lemma AppendIsLost() returns (actions: seq<Action>, id: SegmentId)
    ensures Run(actions).Some?
    ensures var s := Run(actions).value;
            && s.collector == None && s.appenders == map[] && s.clock.active == {}
            && id in s.ids && id !in s.removed && !Listed(s.pages, id)
  {
    hide Run, AppendItem, Listed, Inv;
    var before, s0 := EntryComes();
    var s;
    id := 137;
    InvHolds(before);
    OneAppenderEach(s0, 0);
    actions, s := Step(before, Append(0, None));
    assert s.appenders == map[];
    actions, s := CollectionEnds(actions, s);
    var after := [ListRuns.Relink, EndCollect, Finish(5), Finish(6)];
    assert actions == before + [Append(0, None)] + after;
    AppendedIsListedIff(before, 0, None, after);
  }

  // ---------------------------------------------------------------------------------------------
  // An entry loaded twice
  // ---------------------------------------------------------------------------------------------

  /** A reader has read the start page. */
  lemma StartIsRead() returns (actions: seq<Action>, s: State)
    ensures Run(actions) == Some(s) && s.clock.active == {3, 4} && s.collector == None && s.appenders == map[]
    ensures s.pages == PagesOf([Plain(136, 3)]) && s.o == TWO_PAGES
    ensures s.readers.Keys == {0} && s.readers[0].next == 8 && s.readers[0].loaded[0] == 1
  {
    hide Run, Plains, Numbers, Inv, CanReuse, CanClean, CanRelink, GoesAstray, PagesOf, IdsOf, Noting, Held;
    actions, s := ReaderStarts();
    FirstRead(s.pages, [Plain(136, 3)]);
    InvHolds(actions);
    IsOnce(s, 0);
    NoneIsHeld(s.appenders);
    actions, s := Step(actions, ReadPage(0));
  }

  lemma FirstRead(pages: Pages, second: Items)
    requires pages == PagesOf(second)
    ensures FIRST in pages && pages[FIRST].Page? && pages[FIRST].next == 8
  {
    hide Plains;
  }

  lemma NoneIsHeld(appenders: map<nat, Appender>)
    requires appenders == map[]
    ensures forall b :: !Held(appenders, b)
  {}

  lemma SnapshotTaken() returns (actions: seq<Action>, s: State)
    ensures Run(actions) == Some(s) && s.clock.active == {3, 4} && s.collector == None && s.appenders == map[]
    ensures s.pages == PagesOf([Plain(136, 3)]) && s.o == TWO_PAGES && s.readers == map[] && 0 in s.clock.live
    ensures 0 in s.entries && 0 in s.place && s.place[0] == FIRST
  {
    hide Run, Plains, Numbers, PagesOf;
    actions, s := SecondPage();
    assert 0 in Numbers(136);
    actions, s := Step(actions, Assign({}));
    assert s.clock.active == {3, 4};
    actions, s := Step(actions, TakeSnapshot(0, 3, None));
  }

  lemma ReaderStarts() returns (actions: seq<Action>, s: State)
    ensures Run(actions) == Some(s) && s.clock.active == {3, 4} && s.collector == None && s.appenders == map[]
    ensures s.pages == PagesOf([Plain(136, 3)]) && s.o == TWO_PAGES
    ensures s.readers.Keys == {0} && s.readers[0].next == FIRST && s.readers[0].loaded == multiset{}
    ensures 0 in s.entries && 0 in s.place && s.place[0] == FIRST
  {
    hide Run, Plains, PagesOf, Owes;
    actions, s := SnapshotTaken();
    actions, s := Step(actions, StartRead(0, 0));
  }

  lemma IsOnce(s: State, id: SegmentId)
    requires Inv(s) && FIRST in s.pages && s.pages[FIRST].Page? && s.appenders == map[]
    requires id in s.entries && id in s.place && s.place[id] == FIRST
    ensures IdsOf(s.pages[FIRST].items)[id] == 1
  {
    hide Inv, IdsOf;
    FirstIsFirst(s);
    CountOnPage(s, FIRST, id);
  }

  /** Entry 0 with a delete file, for which there is no room on its page. */
  const GROWN := Plain(0, 3).(delete := Some(DeleteEntry(FileEntry(30, 1), 1)))

  lemma GrownDoesNotFit()
    ensures ItemCost(GROWN) == 76 && ReplaceItem(Plains(136), 0, GROWN) == None
    ensures AppendItem(DeleteItem(Plains(136), 0), GROWN) == None
    ensures AppendItem([Plain(136, 3)], GROWN) == Some([Plain(136, 3), GROWN])
    ensures |Plains(136)| == 136 && Plains(136)[0] == Plain(0, 3)
  {
    PlainsUse(136);
    PlainCost(0, 3);
    PlainCost(136, 3);
    UsedWithout(Plains(136), 0, GROWN);
    var two := [Plain(136, 3), GROWN];
    assert two[..1] == [Plain(136, 3)] && two == [Plain(136, 3)] + [GROWN];
    assert Used(two) == Used(two[..1]) + 76;
    assert Used([Plain(136, 3)]) == Used([Plain(136, 3)][..0]) + 60;
  }

  lemma {:induction false} UsedWithout(items: Items, offset: nat, e: SegmentMetaEntry)
    requires offset < |items|
    ensures Used(DeleteItem(items, offset)) == Used(items) - ItemCost(items[offset])
    ensures Used(items[offset := e]) == Used(items) - ItemCost(items[offset]) + ItemCost(e)
    ensures Used(DeleteItem(items, offset) + [e]) == Used(DeleteItem(items, offset)) + ItemCost(e)
  {
    hide ItemCost;
    var n := |items| - 1;
    var less := DeleteItem(items, offset);
    assert (less + [e])[..|less|] == less;
    if offset < n {
      UsedWithout(items[..n], offset, e);
      assert less[..n - 1] == DeleteItem(items[..n], offset) && less[n - 1] == items[n];
      assert items[offset := e][..n] == items[..n][offset := e];
    } else {
      assert less == items[..n];
      assert items[offset := e][..n] == items[..n];
    }
  }

  lemma EntryMoves() returns (actions: seq<Action>, s: State)
    ensures Run(actions) == Some(s) && 0 in s.readers && s.readers[0].next == 8 && s.readers[0].loaded[0] == 1
    ensures 1 in s.appenders && s.appenders == map[1 := Appender(4, GROWN, 8, Some(FIRST))]
    ensures 8 in s.pages && s.pages[8] == FreshPage.(items := [Plain(136, 3)])
  {
    hide Run, Plains, AppendItem, ReplaceItem, DeleteItem;
    actions, s := StartIsRead();
    GrownDoesNotFit();
    actions, s := Step(actions, StartMove(1, 4, FIRST, 0, GROWN));
    actions, s := Step(actions, Advance(1));
    assert s.appenders == map[1 := Appender(4, GROWN, 8, Some(FIRST))];
  }

  /**
   A bulk delete moves an entry from a page that a reader has read to the one it reads next: the reader
   loads it twice.
   */
  lemma LoadedTwice() returns (actions: seq<Action>, r: nat, id: SegmentId)
    ensures Run(actions).Some? && r in Run(actions).value.readers
    ensures var u := Run(actions).value.readers[r]; u.next == INVALID_BLOCK && u.loaded[id] == 2
  {
    hide Run, Plains, AppendItem, ReplaceItem, DeleteItem, IdsOf;
    var s;
    r, id := 0, 0;
    actions, s := EntryMoves();
    GrownDoesNotFit();
    actions, s := Step(actions, Append(1, None));
    assert s.appenders == map[];
    assert s.pages[8].items == [Plain(136, 3), GROWN];
    TwoIds();
    assert s.readers[0].loaded[0] == 1 && s.readers[0].next == 8;
    assert !Held(s.appenders, 8);
    actions, s := Step(actions, ReadPage(0));
  }

  lemma TwoIds()
    ensures IdsOf([Plain(136, 3), GROWN])[0] == 1
  {
    var two := [Plain(136, 3), GROWN];
    assert two[..1][..0] == [];
    assert IdsOf(two) == IdsOf(two[..1]) + multiset{0};
    assert IdsOf(two[..1]) == IdsOf(two[..1][..0]) + multiset{136};
  }
}
