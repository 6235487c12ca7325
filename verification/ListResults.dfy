/**
 What comes of the entries and the readers of the list, over all runs.
 */
module ListResults {
  import opened Wrappers
  import opened Block
  import opened Storage
  import opened Transactions
  import opened LinkedItems
  import opened ListRuns

  // ---------------------------------------------------------------------------------------------
  // Which entries are on the list
  // ---------------------------------------------------------------------------------------------

  /** Following the pointers from the start page. */
  ghost predicate Path(pages: Pages, path: seq<BlockNo>) {
    && path != [] && path[0] == FIRST
    && (forall i :: 0 <= i < |path| ==> path[i] in pages && pages[path[i]].Page?)
    && (forall i :: 0 < i < |path| ==> pages[path[i - 1]].next == path[i])
  }

  /** Whoever follows the pointers finds the id. */
  ghost predicate Listed(pages: Pages, id: SegmentId) {
    exists path, e :: Path(pages, path) && e in pages[path[|path| - 1]].items && e.segmentId == id
  }

  /** The page is on the list for good: it is not marked, nor was it made behind a page that is not. */
  ghost predicate OnList(s: State, b: BlockNo) {
    b in s.pages && s.pages[b].Page? && s.pages[b].xmax == INVALID_XID && b !in s.o.hanging
  }

  lemma OnListIsLive(s: State, b: BlockNo)
    requires Inv(s) && b in s.o.rank
    ensures OnList(s, b) <==> b in s.o.live
  {
    hide Points, Collecting, Placed, LostApart, Known, Appending, Reading, Loading, Clock.Valid;
  }

  /** With no collection under way, the pointers lead from each page of the list to the next. */
  lemma NextOnList(s: State, b: BlockNo)
    requires Inv(s) && s.collector == None && b in s.o.live
    ensures b in s.pages && s.pages[b].Page? && b in s.o.rank
    ensures var n := s.pages[b].next;
            if n == INVALID_BLOCK then s.o.NoneAfter(b)
            else n in s.o.live && n in s.o.rank && s.o.Rank(b) < s.o.Rank(n)
                 && s.o.NoneBetween(s.o.Rank(b), s.o.Rank(n))
  {
    hide Marks, Points, Placed, LostApart, Known, Appending, Reading, Loading, Clock.Valid;
    PointsOf(s.pages, s.o, s.freed, b);
  }

  lemma {:induction false} PathIsLive(s: State, path: seq<BlockNo>)
    requires Inv(s) && s.collector == None && Path(s.pages, path)
    ensures path[|path| - 1] in s.o.live
    decreases |path|
  {
    hide Inv;
    if |path| == 1 {
      FirstIsLive(s);
    } else {
      var front := path[..|path| - 1];
      PathIsLive(s, front);
      NextOnList(s, front[|front| - 1]);
      NotInvalid(s, path[|path| - 1]);
    }
  }

  lemma NotInvalid(s: State, b: BlockNo)
    requires Inv(s) && b in s.pages
    ensures b in s.o.rank && b != INVALID_BLOCK
  {
    hide Marks, Points, Collecting, Placed, LostApart, Known, Appending, Reading, Loading, Clock.Valid;
  }

  lemma FirstIsLive(s: State)
    requires Inv(s)
    ensures FIRST in s.o.live && FIRST in s.pages && s.pages[FIRST].Page? && s.o.Rank(FIRST) == 0
  {
    hide Marks, Points, Collecting, Placed, LostApart, Known, Appending, Reading, Loading, Clock.Valid;
  }

  lemma {:induction false} WalkTo(s: State, path: seq<BlockNo>, q: BlockNo) returns (longer: seq<BlockNo>)
    requires Inv(s) && s.collector == None && Path(s.pages, path)
    requires path[|path| - 1] in s.o.live && q in s.o.live && s.o.Rank(path[|path| - 1]) <= s.o.Rank(q)
    ensures Path(s.pages, longer) && longer[|longer| - 1] == q
    decreases s.o.Rank(q) - s.o.Rank(path[|path| - 1])
  {
    hide Inv;
    var b := path[|path| - 1];
    NextOnList(s, b);
    NextOnList(s, q);
    SameRank(s, b, q);
    if b == q {
      longer := path;
    } else {
      var n := s.pages[b].next;
      NextOnList(s, n);
      longer := WalkTo(s, path + [n], q);
    }
  }

  lemma SameRank(s: State, b: BlockNo, q: BlockNo)
    requires Inv(s) && b in s.o.live && q in s.o.live
    ensures s.o.Rank(b) == s.o.Rank(q) ==> b == q
  {
    hide Marks, Points, Collecting, Placed, LostApart, Known, Appending, Reading, Loading, Clock.Valid;
  }

  /** With no collection under way, and the entry not being moved, it is on the list if and only if it is
      among the entries. */
  lemma ListedIsEntry(s: State, id: SegmentId)
    requires Inv(s) && s.collector == None && !InTransit(s.appenders, id)
    ensures Listed(s.pages, id) <==> id in s.entries
  {
    hide Inv, InTransit;
    if id in s.entries {
      PlaceIsRanked(s, id);
      EntryIsThere(s, id);
      FirstIsLive(s);
      var path := WalkTo(s, [FIRST], s.place[id]);
    }
    if path, e :| Path(s.pages, path) && e in s.pages[path[|path| - 1]].items && e.segmentId == id {
      PathIsLive(s, path);
      var k :| 0 <= k < |s.pages[path[|path| - 1]].items| && s.pages[path[|path| - 1]].items[k] == e;
      EntryOnPage(s, path[|path| - 1], k);
    }
  }

  lemma EntryIsThere(s: State, id: SegmentId)
    requires Inv(s) && id in s.entries && !InTransit(s.appenders, id)
    requires id in s.place && s.place[id] in s.pages && s.pages[s.place[id]].Page?
    ensures s.entries[id] in s.pages[s.place[id]].items && s.entries[id].segmentId == id
  {
    hide Shape, Marks, Points, Collecting, LostApart, Known, Appending, Reading, Loading, Clock.Valid, PageHas;
  }

  /** What became of an entry once it was appended. */
  ghost predicate Settled(s: State, id: SegmentId, kept: bool) {
    id in s.ids && if kept then id in s.entries || id in s.removed else id in s.lost
  }

  lemma StepKeepsSettled(s: State, a: Action, id: SegmentId, kept: bool)
    requires Inv(s) && Enabled(s, a) && Settled(s, id, kept)
    ensures Settled(Apply(s, a), id, kept)
  {
    hide Inv, Enabled, Apply;
    match a
    case CleanPage => CleanKeepsSettled(s, id, kept);
    case Append(k, more) => AppendKeepsSettled(s, a, id, kept);
    case _ => OtherKeepsSettled(s, a, id, kept);
  }

  lemma AppendKeepsSettled(s: State, a: Action, id: SegmentId, kept: bool)
    requires a.Append? && Enabled(s, a) && Settled(s, id, kept)
    ensures Settled(Apply(s, a), id, kept)
  {
    hide WithItems, Noting, AppendItem;
  }

  lemma OtherKeepsSettled(s: State, a: Action, id: SegmentId, kept: bool)
    requires !a.CleanPage? && !a.Append? && Enabled(s, a) && Settled(s, id, kept)
    ensures Settled(Apply(s, a), id, kept)
  {
    hide WithItems, Landed, KeptEntries, Removes, Order.Extend, Order.Relink, ReplaceItem, AppendItem;
  }

  lemma CleanKeepsSettled(s: State, id: SegmentId, kept: bool)
    requires Enabled(s, CleanPage) && Settled(s, id, kept)
    ensures Settled(Apply(s, CleanPage), id, kept)
  {
    hide GarbageCollection.Kept, Order.Empty;
  }

  lemma {:induction false} StaysSettled(actions: seq<Action>, more: seq<Action>, id: SegmentId, kept: bool)
    requires Run(actions).Some? && Run(actions + more).Some? && Settled(Run(actions).value, id, kept)
    ensures Settled(Run(actions + more).value, id, kept)
    decreases |more|
  {
    hide Settled, Inv, Enabled, Apply;
    if more == [] {
      assert actions + more == actions;
    } else {
      var front, all := more[..|more| - 1], actions + more;
      assert all[..|all| - 1] == actions + front && all[|all| - 1] == more[|more| - 1];
      StaysSettled(actions, front, id, kept);
      InvHolds(actions + front);
      StepKeepsSettled(Run(actions + front).value, more[|more| - 1], id, kept);
    }
  }

  /**
   Exactly then: whatever happens before and after it, once no collection is under way an entry that was
   appended is found on the list if and only if the page it was put on was not marked deleted then, nor made
   behind one that was, and no collection has found the entry recyclable since.
   */
  lemma AppendedIsListedIff(before: seq<Action>, k: nat, more: Option<SegmentMetaEntry>,
                            after: seq<Action>)
    requires Run(before).Some? && Run(before + [Append(k, more)]).Some?
    requires Run(before + [Append(k, more)] + after).Some?
    requires k in Run(before).value.appenders && Run(before).value.appenders[k].held == None
    requires var t := Run(before + [Append(k, more)] + after).value;
             t.collector == None && !InTransit(t.appenders, Run(before).value.appenders[k].e.segmentId)
    ensures var s, t := Run(before).value, Run(before + [Append(k, more)] + after).value;
            var u := s.appenders[k];
            Listed(t.pages, u.e.segmentId) <==> OnList(s, u.at) && u.e.segmentId !in t.removed
  {
    hide Run, Inv, Enabled, Apply, Listed, OnList, Settled, InTransit;
    var s := Run(before).value;
    var u := s.appenders[k];
    InvHolds(before);
    InvHolds(before + [Append(k, more)] + after);
    OneAppenderEach(s, k);
    OnListIsLive(s, u.at);
    LandsSettled(before, k, more);
    StaysSettled(before + [Append(k, more)], after, u.e.segmentId, u.at in s.o.live);
    var t := Run(before + [Append(k, more)] + after).value;
    ListedIsEntry(t, u.e.segmentId);
    SettledApart(t, u.e.segmentId, u.at in s.o.live);
  }

  lemma LandsSettled(before: seq<Action>, k: nat, more: Option<SegmentMetaEntry>)
    requires Run(before).Some? && Run(before + [Append(k, more)]).Some?
    requires k in Run(before).value.appenders && Run(before).value.appenders[k].held == None
    ensures var s := Run(before).value;
            Settled(Run(before + [Append(k, more)]).value, s.appenders[k].e.segmentId, s.appenders[k].at in s.o.live)
  {
    hide Inv;
    var all := before + [Append(k, more)];
    assert all[..|all| - 1] == before && all[|all| - 1] == Append(k, more);
    InvHolds(before);
    OneAppenderEach(Run(before).value, k);
  }

  /** An append that comes to a page that is somebody else's by then was on a page off the list, and its entry
      is never on the list. */
  lemma StrayIsLost(before: seq<Action>, k: nat, after: seq<Action>)
    requires Run(before).Some? && Run(before + [Astray(k)]).Some? && Run(before + [Astray(k)] + after).Some?
    requires k in Run(before).value.appenders
    requires var t := Run(before + [Astray(k)] + after).value;
             t.collector == None && !InTransit(t.appenders, Run(before).value.appenders[k].e.segmentId)
    ensures var s, t := Run(before).value, Run(before + [Astray(k)] + after).value;
            var u := s.appenders[k];
            u.held == None && !OnList(s, u.at) && !Listed(t.pages, u.e.segmentId)
  {
    hide Run, Inv, Enabled, Apply, Listed, OnList, Settled, InTransit;
    var s, t := Run(before).value, Run(before + [Astray(k)] + after).value;
    var u := s.appenders[k];
    InvHolds(before);
    InvHolds(before + [Astray(k)] + after);
    StraySettled(before, k);
    OnListIsLive(s, u.at);
    StaysSettled(before + [Astray(k)], after, u.e.segmentId, false);
    ListedIsEntry(t, u.e.segmentId);
    SettledApart(t, u.e.segmentId, false);
  }

  lemma StraySettled(before: seq<Action>, k: nat)
    requires Run(before).Some? && Run(before + [Astray(k)]).Some? && k in Run(before).value.appenders
    ensures var s := Run(before).value;
            && s.appenders[k].held == None && s.appenders[k].at in s.o.rank && s.appenders[k].at !in s.o.live
            && Settled(Run(before + [Astray(k)]).value, s.appenders[k].e.segmentId, false)
  {
    hide Inv;
    var all := before + [Astray(k)];
    assert all[..|all| - 1] == before && all[|all| - 1] == Astray(k);
    InvHolds(before);
    OneAppenderEach(Run(before).value, k);
    AstrayIsOff(Run(before).value, k);
  }

  lemma SettledApart(s: State, id: SegmentId, kept: bool)
    requires Inv(s) && Settled(s, id, kept)
    ensures id in s.entries <==> kept && id !in s.removed
  {
    hide Shape, Marks, Points, Collecting, Placed, LostApart, Appending, Reading, Loading, Clock.Valid, Coming;
  }

  // ---------------------------------------------------------------------------------------------
  // What readers load
  // ---------------------------------------------------------------------------------------------

  /** What a view sees, a reader under it owes. */
  lemma VisibleIsOwed(e: SegmentMetaEntry, view: View)
    requires e.Visible(view)
    ensures Owes(e, view)
  {}

  /**
   Over all runs: a reader that has come to the end has loaded everything it owes, and that once, and once
   more for each time that it was moved from a page the reader had passed to one it had not come to yet.
   */
  lemma ReaderLoads(actions: seq<Action>, r: nat, id: SegmentId)
    requires Run(actions).Some? && r in Run(actions).value.readers
    requires Run(actions).value.readers[r].next == INVALID_BLOCK && id in Run(actions).value.readers[r].owed
    ensures var u := Run(actions).value.readers[r];
            u.loaded[id] == 1 + u.passed[id] && id in Run(actions).value.entries
  {
    hide Run, Inv;
    InvHolds(actions);
    ReaderIsDone(Run(actions).value, r, id);
  }

  lemma ReaderIsDone(s: State, r: nat, id: SegmentId)
    requires Inv(s) && r in s.readers && s.readers[r].next == INVALID_BLOCK && id in s.readers[r].owed
    ensures s.readers[r].loaded[id] == 1 + s.readers[r].passed[id] && id in s.entries
  {
    hide Shape, Marks, Points, Collecting, Placed, LostApart, Known, Appending, Clock.Valid, Fresh;
    assert s.readers[r].v in s.clock.live;
    assert LoadedSoFar(s.o, s.readers[r], id, s.place[id]);
  }

  /** A reader that starts owes every entry its view sees. */
  lemma ReaderOwes(s: State, r: nat, v: nat, id: SegmentId)
    requires Enabled(s, StartRead(r, v)) && id in s.entries && s.entries[id].Visible(s.clock.live[v])
    ensures id in Apply(s, StartRead(r, v)).readers[r].owed
  {
    VisibleIsOwed(s.entries[id], s.clock.live[v]);
  }

  /** No page is reused that a reader stands before, however long it was taken off the list. */
  lemma ReusedPageIsUnread(actions: seq<Action>, b: BlockNo, horizon: Xid, r: nat)
    requires Run(actions).Some? && Enabled(Run(actions).value, Reuse(b, horizon)) && r in Run(actions).value.readers
    ensures Run(actions).value.readers[r].next != b
  {
    hide Run, Inv;
    InvHolds(actions);
    ReaderIsSpared(Run(actions).value, b, horizon);
  }
}
