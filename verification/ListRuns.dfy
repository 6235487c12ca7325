/**
 The list of entries while everybody works on it at once: one collection at a time, inserts that append,
 bulk deletes that change or move entries, readers, and others who reuse the pages taken off the list.
 Each step is what one backend does to one page under its lock.
 */
module ListRuns {
  import opened Wrappers
  import opened Block
  import opened Storage
  import opened Transactions
  import opened LinkedItems
  import GarbageCollection

  type Env = GarbageCollection.Env
  type Entries = map<SegmentId, SegmentMetaEntry>

  /** The start page, which is never taken off. */
  const FIRST: BlockNo := 7

  /** `garbage_collect` under way: the page to visit, the last one kept, and a pointer still to be written. */
  datatype Collector = Collector(x: Xid, env: Env, at: BlockNo, last: BlockNo, pending: Option<BlockNo>)

  /** `add_items` under way, with the entry to be put next; `held`: the page it was moved from, which stays
      locked. */
  datatype Appender = Appender(x: Xid, e: SegmentMetaEntry, at: BlockNo, held: Option<BlockNo>)

  /** `load_metas` under way: the page to read next, and the ids read so far. */
  datatype Reader = Reader(
    v: nat, next: BlockNo, loaded: multiset<SegmentId>,
    // for the proof only
    owed: set<SegmentId>,                 // what was on the list at the start, and not deleted long ago
    passed: multiset<SegmentId>)          // what was moved from behind the reader to a page ahead

  /**
   For the proof only: which pages are on the list for good, which were emptied and are still pointed at,
   which were taken off but lead back to the list, and which lead nowhere; and in which order they were made.
   `hanging`: pages that were made behind a page that is not on the list for good.
   */
  datatype Order = Order(live: set<BlockNo>, gap: set<BlockNo>, off: set<BlockNo>, ended: set<BlockNo>,
                         hanging: set<BlockNo>, rank: map<BlockNo, nat>, top: nat)
  {
    ghost function Rank(b: BlockNo): nat { if b in rank then rank[b] else top }
    ghost predicate Cut(b: BlockNo) { b in gap || b in off || b in ended }
    ghost predicate Linked(b: BlockNo) { b in live || b in gap }
    ghost predicate NoneBetween(lo: nat, hi: nat) { forall q :: q in live ==> !(lo < Rank(q) < hi) }
    ghost predicate NoneAfter(b: BlockNo) { forall q :: q in live ==> Rank(q) <= Rank(b) }

    /** Who reads from `next` on comes to the page `q`. */
    ghost predicate Ahead(next: BlockNo, q: BlockNo) {
      next != INVALID_BLOCK && next !in ended && Rank(next) <= Rank(q)
    }

    /** A page made behind `p`. */
    ghost function Extend(p: BlockNo, b: BlockNo): Order {
      var o := this.(rank := rank[b := top], top := top + 1);
      if p in live then o.(live := live + {b})
      else if p in gap then o.(gap := gap + {b}, hanging := hanging + {b})
      else o.(ended := ended + {b}, hanging := hanging + {b})
    }

    ghost function Empty(p: BlockNo): Order {
      this.(live := live - {p}, gap := gap + {p})
    }

    /** The pages emptied since `last` are passed over. */
    ghost function Relink(last: BlockNo, target: BlockNo): Order {
      if target != INVALID_BLOCK then this.(off := off + gap, gap := {})
      else
        var beyond := set b | b in off && Rank(last) < Rank(b);
        this.(ended := ended + gap + beyond, off := off - beyond, gap := {})
    }

    ghost function Reuse(b: BlockNo): Order {
      this.(off := off - {b}, ended := ended - {b}, rank := rank - {b})
    }
  }

  datatype State = State(
    clock: Clock,
    pages: Pages,
    collector: Option<Collector>,
    appenders: map<nat, Appender>,
    readers: map<nat, Reader>,
    // for the proof only
    o: Order,
    freed: Xid,                           // bounds what was ever reused
    entries: Entries,                     // what is on the list
    place: map<SegmentId, BlockNo>,
    ids: set<SegmentId>,
    lost: set<SegmentId>,                 // what was put on a page that is not on the list for good
    removed: set<SegmentId>)              // what a collection found recyclable

  const INIT := State(START, map[FIRST := FreshPage], None, map[], map[],
                      Order({FIRST}, {}, {}, {}, {}, map[FIRST := 0], 1), INVALID_XID, map[], map[], {}, {}, {})

  datatype Action =
    | Assign(views: set<nat>)
    | TakeSnapshot(v: nat, xmin: Xid, current: Option<Xid>)
    | ReleaseSnapshot(v: nat)
    | Finish(x: Xid)
    | StartAppend(k: nat, x: Xid, e: SegmentMetaEntry)
    | StartMove(k: nat, x: Xid, b: BlockNo, offset: nat, e: SegmentMetaEntry)
    | Append(k: nat, more: Option<SegmentMetaEntry>)  // and the call goes on with another entry, or is done
    | Advance(k: nat)
    | Astray(k: nat)                                  // onto a page that is somebody else's by now
    | Extend(k: nat, b: BlockNo)
    | Update(x: Xid, b: BlockNo, offset: nat, e: SegmentMetaEntry)
    | BeginCollect(x: Xid, env: Env)
    | CleanPage
    | Relink
    | EndCollect
    | StartRead(r: nat, v: nat)
    | ReadPage(r: nat)
    | CloseReader(r: nat)
    | Reuse(b: BlockNo, horizon: Xid)                 // a page taken off the list becomes somebody else's

  /** A moved entry is between its old page and its new one. */
  ghost predicate Held(appenders: map<nat, Appender>, b: BlockNo) {
    exists k :: k in appenders && appenders[k].held == Some(b)
  }

  ghost predicate Moving(appenders: map<nat, Appender>) {
    exists k :: k in appenders && appenders[k].held.Some?
  }

  ghost predicate HasRoom(s: State, k: nat) {
    k in s.appenders && s.appenders[k].at in s.pages && s.pages[s.appenders[k].at].Page?
    && AppendItem(s.pages[s.appenders[k].at].items, s.appenders[k].e).Some?
  }

  ghost predicate IsFull(s: State, k: nat) {
    k in s.appenders && s.appenders[k].at in s.pages && s.pages[s.appenders[k].at].Page?
    && AppendItem(s.pages[s.appenders[k].at].items, s.appenders[k].e).None?
  }

  predicate IsNew(s: State, x: Xid, e: SegmentMetaEntry) {
    e.segmentId !in s.ids && e.xmin == x && e.xmax == INVALID_XID
  }

  ghost predicate GoesAstray(s: State, k: nat) {
    IsFull(s, k) && s.pages[s.appenders[k].at].next != INVALID_BLOCK && s.pages[s.appenders[k].at].next !in s.pages
  }

  ghost predicate Enabled(s: State, a: Action) {
    match a
    case Assign(views) => s.clock.CanAssign(views)
    case TakeSnapshot(v, xmin, current) => s.clock.CanTakeSnapshot(v, xmin, current)
    case ReleaseSnapshot(v) => v in s.clock.live && forall r :: r in s.readers ==> s.readers[r].v != v
    // under the merge lock, which is a page lock, a collection is not interrupted
    case Finish(x) =>
      && x in s.clock.active && (s.collector.Some? ==> s.collector.value.x != x)
      && (forall k :: k in s.appenders ==> s.appenders[k].x != x)
    case StartAppend(k, x, e) =>
      k !in s.appenders && x in s.clock.active && IsNew(s, x, e)
    // by a bulk delete, which has the merge lock: one at a time, and not while there is a collection
    case StartMove(k, x, b, offset, e) =>
      && k !in s.appenders && x in s.clock.active && s.collector == None && !Moving(s.appenders)
      && b in s.o.live && b in s.pages && s.pages[b].Page? && offset < |s.pages[b].items|
      && Replaces(s.pages[b].items[offset], e, x) && ReplaceItem(s.pages[b].items, offset, e) == None
    case Append(k, more) =>
      HasRoom(s, k) && (more.Some? ==> s.appenders[k].held == None && IsNew(s, s.appenders[k].x, more.value))
    case Advance(k) =>
      IsFull(s, k) && s.pages[s.appenders[k].at].next != INVALID_BLOCK && s.pages[s.appenders[k].at].next in s.pages
    case Astray(k) => GoesAstray(s, k)
    case Extend(k, b) =>
      IsFull(s, k) && s.pages[s.appenders[k].at].next == INVALID_BLOCK && b !in s.pages && 0 < b < INVALID_BLOCK
    // of a segment deleted, or with a new delete file; whoever does that holds the merge lock
    case Update(x, b, offset, e) =>
      && x in s.clock.active && s.collector == None && !Moving(s.appenders)
      && b in s.o.live && b in s.pages && s.pages[b].Page? && offset < |s.pages[b].items|
      && Replaces(s.pages[b].items[offset], e, x) && ReplaceItem(s.pages[b].items, offset, e).Some?
    case BeginCollect(x, env) =>
      && s.collector == None && !Moving(s.appenders) && x in s.clock.active
      && env.Sound() && s.clock.MayRemoveBelow(env.horizon)
    case CleanPage => CanClean(s)
    case Relink => CanRelink(s)
    case EndCollect => s.collector.Some? && s.collector.value.pending == None && s.collector.value.at == INVALID_BLOCK
    case StartRead(r, v) => r !in s.readers && v in s.clock.live
    case ReadPage(r) => CanRead(s, r)
    case CloseReader(r) => r in s.readers
    case Reuse(b, horizon) => CanReuse(s, b, horizon)
  }

  ghost predicate CanClean(s: State) {
    && s.collector.Some? && s.collector.value.pending == None && s.collector.value.at != INVALID_BLOCK
    && s.collector.value.at in s.pages && s.pages[s.collector.value.at].Page?
  }

  ghost predicate CanRelink(s: State) {
    && s.collector.Some? && s.collector.value.pending.Some?
    && s.collector.value.last in s.pages && s.pages[s.collector.value.last].Page?
  }

  ghost predicate CanRead(s: State, r: nat) {
    && r in s.readers && s.readers[r].next != INVALID_BLOCK && !Held(s.appenders, s.readers[r].next)
    && s.readers[r].next in s.pages && s.pages[s.readers[r].next].Page?
  }

  /** Taken off the list and marked, recyclable, and locked by nobody. */
  ghost predicate CanReuse(s: State, b: BlockNo, horizon: Xid) {
    && s.o.Cut(b) && b !in s.o.gap && b in s.pages && s.pages[b].Page? && s.pages[b].xmax != INVALID_XID
    && s.pages[b].xmax < horizon && s.clock.MayRemoveBelow(horizon)
    && forall k :: k in s.appenders ==> s.appenders[k].at != b
  }

  /** The same segment, with a new delete file, or deleted by `x`. */
  predicate Replaces(was: SegmentMetaEntry, e: SegmentMetaEntry, x: Xid) {
    e.segmentId == was.segmentId && e.xmin == was.xmin && (e.xmax == was.xmax || e.xmax == x)
  }

  ghost function IdsOf(items: Items): multiset<SegmentId> {
    if items == [] then multiset{} else IdsOf(items[..|items| - 1]) + multiset{items[|items| - 1].segmentId}
  }

  ghost function WithItems(pages: Pages, b: BlockNo, items: Items): Pages
    requires b in pages && pages[b].Page?
  {
    pages[b := pages[b].(items := items)]
  }

  /** What a collection leaves of the entries, and which it removes, when it cleans the page. */
  ghost function KeptEntries(entries: Entries, place: map<SegmentId, BlockNo>, b: BlockNo, env: Env): Entries {
    map id | id in entries && !Removes(entries, place, b, env, id) ::
      if id in place && place[id] == b then entries[id].Freeze(env.freezeLimit) else entries[id]
  }

  ghost predicate Removes(entries: Entries, place: map<SegmentId, BlockNo>, b: BlockNo, env: Env, id: SegmentId) {
    id in entries && id in place && place[id] == b && entries[id].Recyclable(env.snapshot, env.horizon)
  }

  /** Moves are noted with the readers that will read the entry again. */
  ghost function Noting(readers: map<nat, Reader>, o: Order, id: SegmentId, q: BlockNo, q': BlockNo): map<nat, Reader> {
    map r | r in readers ::
      if o.Ahead(readers[r].next, q') && !o.Ahead(readers[r].next, q)
      then readers[r].(passed := readers[r].passed + multiset{id}) else readers[r]
  }

  ghost function Starting(s: State, k: nat, u: Appender): State {
    s.(appenders := s.appenders[k := u], ids := s.ids + {u.e.segmentId})
  }

  /** The entry is on the page, and is off the list if that is. */
  ghost function Landed(s: State, k: nat): State
    requires HasRoom(s, k)
  {
    var u := s.appenders[k];
    var id := u.e.segmentId;
    var t := s.(pages := WithItems(s.pages, u.at, s.pages[u.at].items + [u.e]), appenders := s.appenders - {k});
    if u.held.Some? then
      t.(place := s.place[id := u.at], readers := Noting(s.readers, s.o, id, u.held.value, u.at))
    else if u.at in s.o.live then
      t.(entries := s.entries[id := u.e], place := s.place[id := u.at])
    else
      t.(lost := s.lost + {id})
  }

  ghost function Apply(s: State, a: Action): State
    requires Enabled(s, a)
  {
    match a
    case Assign(views) => s.(clock := s.clock.Assign(views))
    case TakeSnapshot(v, xmin, current) => s.(clock := s.clock.TakeSnapshot(v, xmin, current))
    case ReleaseSnapshot(v) => s.(clock := s.clock.Release(v))
    case Finish(x) =>
      s.(clock := s.clock.Finish(x),
         readers := map r | r in s.readers && s.readers[r].v in s.clock.Finish(x).live :: s.readers[r])
    case StartAppend(k, x, e) =>
      Starting(s, k, Appender(x, e, FIRST, None))
    case StartMove(k, x, b, offset, e) =>
      s.(pages := WithItems(s.pages, b, DeleteItem(s.pages[b].items, offset)),
         appenders := s.appenders[k := Appender(x, e, b, Some(b))], entries := s.entries[e.segmentId := e])
    case Append(k, more) =>
      if more.Some? then Starting(Landed(s, k), k, Appender(s.appenders[k].x, more.value, s.appenders[k].at, None))
      else Landed(s, k)
    case Advance(k) =>
      var u := s.appenders[k];
      s.(appenders := s.appenders[k := u.(at := s.pages[u.at].next)])
    case Astray(k) => s.(appenders := s.appenders - {k}, lost := s.lost + {s.appenders[k].e.segmentId})
    case Extend(k, b) =>
      var u := s.appenders[k];
      s.(pages := s.pages[u.at := s.pages[u.at].(next := b)][b := FreshPage],
         appenders := s.appenders[k := u.(at := b)], o := s.o.Extend(u.at, b))
    case Update(x, b, offset, e) =>
      s.(pages := WithItems(s.pages, b, s.pages[b].items[offset := e]), entries := s.entries[e.segmentId := e])
    case BeginCollect(x, env) =>
      s.(collector := Some(Collector(x, env, FIRST, FIRST, None)), clock := s.clock.RemoveBelow(env.horizon))
    case CleanPage =>
      var c := s.collector.value;
      var p := s.pages[c.at];
      var items := GarbageCollection.Kept(p.items, c.env);
      var next := p.next;
      var empties := items == [] && c.at != FIRST;
      var page := if empties then p.(items := items).MarkDeleted(s.clock.nextXid) else p.(items := items);
      var pending :=
        if empties then (if next == INVALID_BLOCK then Some(INVALID_BLOCK) else None)
        else if c.at != FIRST then Some(c.at) else None;
      s.(pages := s.pages[c.at := page], collector := Some(c.(at := next, pending := pending)),
         o := if empties then s.o.Empty(c.at) else s.o,
         entries := KeptEntries(s.entries, s.place, c.at, c.env),
         removed := s.removed + set id | id in s.entries && Removes(s.entries, s.place, c.at, c.env, id))
    case Relink =>
      var c := s.collector.value;
      var target := c.pending.value;
      s.(pages := s.pages[c.last := s.pages[c.last].(next := target)],
         collector := Some(c.(last := if target == INVALID_BLOCK then c.last else target, pending := None)),
         o := s.o.Relink(c.last, target))
    case EndCollect => s.(collector := None)
    case StartRead(r, v) =>
      var owed := set id | id in s.entries && Owes(s.entries[id], s.clock.live[v]);
      s.(readers := s.readers[r := Reader(v, FIRST, multiset{}, owed, multiset{})])
    case ReadPage(r) =>
      s.(readers := s.readers[r := ReadOn(s.readers[r], s.pages[s.readers[r].next])])
    case CloseReader(r) => s.(readers := s.readers - {r})
    case Reuse(b, horizon) =>
      s.(pages := s.pages - {b}, o := s.o.Reuse(b), clock := s.clock.RemoveBelow(horizon),
         freed := if s.freed < horizon then horizon else s.freed)
  }

  ghost function ReadOn(u: Reader, p: Page): Reader
    requires p.Page?
  {
    u.(next := p.next, loaded := u.loaded + IdsOf(p.items))
  }

  /** Not deleted, or not by anyone whom the snapshot has passed: the view may still see it. */
  predicate Owes(e: SegmentMetaEntry, view: View) {
    e.xmax == INVALID_XID || view.snap.xmin <= e.xmax
  }

  ghost function Run(actions: seq<Action>): Option<State> {
    if actions == [] then Some(INIT)
    else
      var before := Run(actions[..|actions| - 1]);
      var a := actions[|actions| - 1];
      if before.Some? && Enabled(before.value, a) then Some(Apply(before.value, a)) else None
  }

  // ---------------------------------------------------------------------------------------------
  // What every step keeps
  // ---------------------------------------------------------------------------------------------

  ghost predicate Inv(s: State) {
    && s.clock.Valid() && s.freed <= s.clock.oldest
    && Shape(s.pages, s.o) && Marks(s.pages, s.o, s.collector, s.freed, s.clock.nextXid)
    && Points(s.pages, s.o, s.freed) && Collecting(s.pages, s.o, s.collector, s.clock)
    && Placed(s.pages, s.o.live, s.entries, s.place, s.appenders)
    && LostApart(s.pages, s.o, s.lost)
    && Known(s.entries, s.appenders, s.ids, s.lost, s.removed)
    && Appending(s.pages, s.o, s.appenders, s.collector, s.place, s.clock.active)
    && Reading(s.pages, s.o, s.readers, s.clock.live) && Loading(s.o, s.readers, s.entries, s.place, s.clock.live)
  }

  ghost predicate Shape(pages: Pages, o: Order) {
    && FIRST in o.live && FIRST in o.rank && o.rank[FIRST] == 0 && o.live !! o.hanging && o.hanging <= o.rank.Keys
    && o.live !! o.gap && o.live !! o.off && o.live !! o.ended && o.gap !! o.off && o.gap !! o.ended && o.off !! o.ended
    && o.rank.Keys == o.live + o.gap + o.off + o.ended == pages.Keys
    && (forall b :: b in o.rank ==> o.rank[b] < o.top && 0 < b < INVALID_BLOCK && pages[b].Page?)
    && (forall b, q :: b in o.rank && q in o.rank && b != q ==> o.rank[b] != o.rank[q])
  }

  /** A page is marked exactly if it was emptied; pages made behind such are not. */
  ghost predicate Marks(pages: Pages, o: Order, collector: Option<Collector>, freed: Xid, nextXid: Xid) {
    forall b :: b in o.rank && b in pages && pages[b].Page? ==>
      && pages[b].xmax <= nextXid
      && (pages[b].xmax == INVALID_XID <==> b in o.live || b in o.hanging)
      && (b in o.gap && pages[b].xmax != INVALID_XID ==> collector.Some? && collector.value.x < pages[b].xmax)
  }

  ghost predicate Fresh(p: Page, freed: Xid) {
    p.Page? && (p.xmax == INVALID_XID || freed <= p.xmax)
  }

  /** A page that is not on the list for good is not reused before one that points at it. */
  ghost predicate MarkedBefore(p: Page, n: Page) {
    p.Page? && n.Page? && (n.xmax != INVALID_XID ==> p.xmax != INVALID_XID && p.xmax <= n.xmax)
  }

  ghost predicate Points(pages: Pages, o: Order, freed: Xid) {
    forall b :: b in o.rank ==> PointsOn(pages, o, freed, b)
  }

  ghost predicate PointsOn(pages: Pages, o: Order, freed: Xid, b: BlockNo) {
    b in pages && pages[b].Page?
    && var n := pages[b].next;
       if o.Linked(b) then
         if n == INVALID_BLOCK then o.NoneAfter(b)
         else o.Linked(n) && Onward(pages, o, b, n)
       else if b in o.off then
         Fresh(pages[b], freed) ==> n != INVALID_BLOCK && (o.Linked(n) || n in o.off) && Onward(pages, o, b, n)
       else
         Fresh(pages[b], freed) ==>
           n == INVALID_BLOCK || (n in o.ended && n in pages && MarkedBefore(pages[b], pages[n]))
  }

  ghost predicate Onward(pages: Pages, o: Order, b: BlockNo, n: BlockNo) {
    && b in pages && n in pages && o.Rank(b) < o.Rank(n) && o.NoneBetween(o.Rank(b), o.Rank(n))
    && (o.Cut(b) && o.Cut(n) ==> MarkedBefore(pages[b], pages[n]))
    && (o.Cut(b) && !o.Cut(n) ==> pages[b].Page? && pages[b].xmax != INVALID_XID)
  }

  /** The pages emptied lie between the last one kept and the one to come. */
  ghost predicate Collecting(pages: Pages, o: Order, collector: Option<Collector>, clock: Clock) {
    match collector
    case None =>
      o.gap == {}
    case Some(c) =>
      && c.x in clock.active && c.env.Sound() && c.env.horizon <= clock.oldest
      && c.last in o.live && c.last in pages && pages[c.last].Page? && (o.gap != {} ==> pages[c.last].next in o.gap)
      && (forall b :: b in o.live && b in pages && pages[b].Page? && pages[b].next in o.gap ==> b == c.last)
      && (forall g :: g in o.gap ==> o.Rank(c.last) < o.Rank(g))
      && (forall g :: g in o.gap && g in o.hanging ==> c.pending == Some(INVALID_BLOCK))
      && match c.pending {
           case None =>
             if c.at == INVALID_BLOCK then o.gap == {}
             else
               && c.at in o.live
               && ((c.at == FIRST && c.last == FIRST && o.gap == {}) || Follows(o, c.last, c.at))
               && Before(o, c.at)
           case Some(t) =>
             if t == INVALID_BLOCK then c.at == INVALID_BLOCK && o.gap != {} && o.NoneAfter(c.last)
             else
               && t in o.live && Follows(o, c.last, t) && Before(o, t)
               && (c.at == INVALID_BLOCK || (c.at in o.live && Follows(o, t, c.at)))
         }
  }

  ghost predicate Follows(o: Order, b: BlockNo, n: BlockNo) {
    o.Rank(b) < o.Rank(n) && o.NoneBetween(o.Rank(b), o.Rank(n))
  }

  ghost predicate Before(o: Order, n: BlockNo) {
    forall g :: g in o.gap ==> o.Rank(g) < o.Rank(n)
  }

  ghost predicate InTransit(appenders: map<nat, Appender>, id: SegmentId) {
    exists k :: k in appenders && appenders[k].held.Some? && appenders[k].e.segmentId == id
  }

  /** Every entry is on its page, once, and the pages of the list have nothing else. */
  ghost predicate Placed(pages: Pages, live: set<BlockNo>, entries: Entries, place: map<SegmentId, BlockNo>,
                         appenders: map<nat, Appender>)
  {
    && (forall id :: id in entries ==>
          && entries[id].segmentId == id && id in place && place[id] in live
          && (InTransit(appenders, id) || (place[id] in pages && pages[place[id]].Page?
                                           && entries[id] in pages[place[id]].items)))
    && (forall b :: b in live && b in pages && pages[b].Page? ==> PageHas(pages[b].items, b, entries, place, appenders))
  }

  ghost predicate PageHas(items: Items, b: BlockNo, entries: Entries, place: map<SegmentId, BlockNo>,
                          appenders: map<nat, Appender>)
  {
    && Distinct(items)
    && forall e :: e in items ==>
         && e.segmentId in entries && entries[e.segmentId] == e
         && e.segmentId in place && place[e.segmentId] == b && !InTransit(appenders, e.segmentId)
  }

  ghost predicate Distinct(items: Items) {
    forall i, j :: 0 <= i < j < |items| ==> items[i].segmentId != items[j].segmentId
  }

  ghost predicate LostApart(pages: Pages, o: Order, lost: set<SegmentId>) {
    forall b, e :: o.Cut(b) && b in pages && pages[b].Page? && e in pages[b].items ==> e.segmentId in lost
  }

  /** What was put anywhere is on the list, lost, or removed. */
  ghost predicate Known(entries: Entries, appenders: map<nat, Appender>, ids: set<SegmentId>, lost: set<SegmentId>,
                        removed: set<SegmentId>)
  {
    && entries.Keys + lost + removed <= ids
    && entries.Keys !! lost && entries.Keys !! removed && lost !! removed
    && (forall id :: id in ids ==> id in entries || id in lost || id in removed || Coming(appenders, id))
    && (forall k :: k in appenders ==> appenders[k].e.segmentId in ids)
    && (forall k :: k in appenders && appenders[k].held == None ==>
          var id := appenders[k].e.segmentId; id !in entries && id !in lost && id !in removed)
    && (forall k :: k in appenders && appenders[k].held.Some? ==>
          appenders[k].e.segmentId in entries && entries[appenders[k].e.segmentId] == appenders[k].e)
    && (forall j, k :: j in appenders && k in appenders && j != k ==>
          appenders[j].e.segmentId != appenders[k].e.segmentId)
  }

  ghost predicate Coming(appenders: map<nat, Appender>, id: SegmentId) {
    exists k :: k in appenders && appenders[k].held == None && appenders[k].e.segmentId == id
  }

  ghost predicate Appending(pages: Pages, o: Order, appenders: map<nat, Appender>, collector: Option<Collector>,
                            place: map<SegmentId, BlockNo>, active: set<Xid>)
  {
    && (forall k :: k in appenders ==>
          appenders[k].x in active && appenders[k].at in o.rank && appenders[k].at in pages)
    && (forall k :: k in appenders && appenders[k].held.Some? ==> IsMove(appenders[k], o, collector, place))
    && (forall j, k :: j in appenders && k in appenders && appenders[j].held.Some? && appenders[k].held.Some? ==>
          j == k)
  }

  ghost predicate IsMove(u: Appender, o: Order, collector: Option<Collector>, place: map<SegmentId, BlockNo>)
    requires u.held.Some?
  {
    && collector == None && u.at in o.live && u.held.value in o.live && o.Rank(u.held.value) <= o.Rank(u.at)
    && u.e.segmentId in place && place[u.e.segmentId] == u.held.value
  }

  /** Nobody's next page is one that may be reused while the reader's snapshot is in use. */
  ghost predicate Reading(pages: Pages, o: Order, readers: map<nat, Reader>, live: map<nat, View>) {
    forall r :: r in readers ==>
      && readers[r].v in live
      && (readers[r].next != INVALID_BLOCK ==>
            && readers[r].next in o.rank && readers[r].next in pages
            && (o.Cut(readers[r].next) ==> Fresh(pages[readers[r].next], live[readers[r].v].snap.xmin)))
  }

  /** What a reader owes is on the list, and read as often as it was put where the reader came by. */
  ghost predicate Loading(o: Order, readers: map<nat, Reader>, entries: Entries, place: map<SegmentId, BlockNo>,
                          live: map<nat, View>)
  {
    forall r, id :: r in readers && id in readers[r].owed && readers[r].v in live ==>
      && id in entries && id in place && Owes(entries[id], live[readers[r].v])
      && LoadedSoFar(o, readers[r], id, place[id])
  }

  ghost predicate LoadedSoFar(o: Order, u: Reader, id: SegmentId, q: BlockNo) {
    u.loaded[id] + (if o.Ahead(u.next, q) then 1 else 0) == 1 + u.passed[id]
  }

  lemma {:induction false} InvHolds(actions: seq<Action>)
    requires Run(actions).Some?
    ensures Inv(Run(actions).value)
  {
    hide Inv, Enabled, Apply;
    if actions == [] {
      InitHolds();
    } else {
      InvHolds(actions[..|actions| - 1]);
      StepKeeps(Run(actions[..|actions| - 1]).value, actions[|actions| - 1]);
    }
  }

  lemma InitHolds()
    ensures Inv(INIT)
  {}

  lemma StepKeeps(s: State, a: Action)
    requires Inv(s) && Enabled(s, a)
    ensures Inv(Apply(s, a))
  {
    hide Inv, Enabled, Apply;
    match a
    case Assign(views) => ClockStepKeeps(s, a);
    case TakeSnapshot(v, xmin, current) => ClockStepKeeps(s, a);
    case ReleaseSnapshot(v) => ClockStepKeeps(s, a);
    case Finish(x) => FinishKeeps(s, a);
    case StartAppend(k, x, e) => StartAppendKeeps(s, a);
    case StartMove(k, x, b, offset, e) => StartMoveKeeps(s, a);
    case Append(k, more) => AppendKeeps(s, a);
    case Advance(k) => AdvanceKeeps(s, a);
    case Astray(k) => AstrayKeeps(s, a);
    case Extend(k, b) => ExtendKeeps(s, a);
    case Update(x, b, offset, e) => UpdateKeeps(s, a);
    case BeginCollect(x, env) => BeginCollectKeeps(s, a);
    case CleanPage => CleanKeeps(s, a);
    case Relink => RelinkKeeps(s, a);
    case EndCollect => EndCollectKeeps(s, a);
    case StartRead(r, v) => StartReadKeeps(s, a);
    case ReadPage(r) => ReadPageKeeps(s, a);
    case CloseReader(r) => CloseReaderKeeps(s, a);
    case Reuse(b, horizon) => ReuseKeeps(s, a);
  }

  // Time passes: more ids, more snapshots, fewer readers.

  lemma TimePasses(s: State, clock: Clock, readers: map<nat, Reader>)
    requires Inv(s) && clock.Valid() && s.clock.nextXid <= clock.nextXid && s.clock.oldest <= clock.oldest
    requires s.collector.Some? ==> s.collector.value.x in clock.active
    requires forall k :: k in s.appenders ==> s.appenders[k].x in clock.active
    requires forall r :: r in readers ==>
      && r in s.readers && readers[r] == s.readers[r] && readers[r].v in clock.live
      && readers[r].v in s.clock.live && clock.live[readers[r].v].snap == s.clock.live[readers[r].v].snap
    ensures Inv(s.(clock := clock, readers := readers))
  {
    hide Clock.Valid, Shape, Points, Placed, LostApart, Known, Marks, Collecting, Appending, Reading, Loading;
    MarksLater(s.pages, s.o, s.collector, s.freed, s.clock.nextXid, clock.nextXid);
    CollectingLater(s.pages, s.o, s.collector, s.clock, clock);
    AppendingLater(s.pages, s.o, s.appenders, s.collector, s.place, s.clock.active, clock.active);
    ReadingLater(s.pages, s.o, s.readers, readers, s.clock.live, clock.live);
    LoadingLater(s.o, s.readers, readers, s.entries, s.place, s.clock.live, clock.live);
  }

  lemma MarksLater(pages: Pages, o: Order, collector: Option<Collector>, freed: Xid, n: Xid, n': Xid)
    requires Marks(pages, o, collector, freed, n) && n <= n'
    ensures Marks(pages, o, collector, freed, n')
  {}

  lemma CollectingLater(pages: Pages, o: Order, collector: Option<Collector>, c: Clock, c': Clock)
    requires Collecting(pages, o, collector, c) && c.oldest <= c'.oldest
    requires collector.Some? ==> collector.value.x in c'.active
    ensures Collecting(pages, o, collector, c')
  {
    hide Follows, Before;
  }

  lemma AppendingLater(pages: Pages, o: Order, appenders: map<nat, Appender>, collector: Option<Collector>,
                       place: map<SegmentId, BlockNo>, active: set<Xid>, active': set<Xid>)
    requires Appending(pages, o, appenders, collector, place, active)
    requires forall k :: k in appenders ==> appenders[k].x in active'
    ensures Appending(pages, o, appenders, collector, place, active')
  {
    hide IsMove, Fresh;
  }

  lemma ReadingLater(pages: Pages, o: Order, readers: map<nat, Reader>, readers': map<nat, Reader>,
                     live: map<nat, View>, live': map<nat, View>)
    requires Reading(pages, o, readers, live)
    requires forall r :: r in readers' ==>
      && r in readers && readers'[r] == readers[r] && readers[r].v in live && readers[r].v in live'
      && live'[readers[r].v].snap == live[readers[r].v].snap
    ensures Reading(pages, o, readers', live')
  {
    hide Fresh;
  }

  lemma LoadingLater(o: Order, readers: map<nat, Reader>, readers': map<nat, Reader>, entries: Entries,
                     place: map<SegmentId, BlockNo>, live: map<nat, View>, live': map<nat, View>)
    requires Loading(o, readers, entries, place, live)
    requires forall r :: r in readers' ==>
      && r in readers && readers'[r] == readers[r] && readers[r].v in live && readers[r].v in live'
      && live'[readers[r].v].snap == live[readers[r].v].snap
    ensures Loading(o, readers', entries, place, live')
  {
    hide LoadedSoFar;
  }

  lemma ClockStepKeeps(s: State, a: Action)
    requires a.Assign? || a.TakeSnapshot? || a.ReleaseSnapshot?
    requires Inv(s) && Enabled(s, a)
    ensures Inv(Apply(s, a))
  {
    hide Shape, Marks, Points, Collecting, Placed, LostApart, Known, Appending, Reading, Loading, Clock.Valid;
    ReadersAreLive(s);
    PeopleAreActive(s);
    hide Inv;
    match a {
      case Assign(views) =>
        AssignKeepsClock(s.clock, views);
        TimePasses(s, s.clock.Assign(views), s.readers);
      case TakeSnapshot(v, xmin, current) =>
        TakeSnapshotKeepsClock(s.clock, v, xmin, current);
        TimePasses(s, s.clock.TakeSnapshot(v, xmin, current), s.readers);
      case ReleaseSnapshot(v) =>
        ReleaseKeepsClock(s.clock, v);
        TimePasses(s, s.clock.Release(v), s.readers);
    }
  }

  lemma FinishKeeps(s: State, a: Action)
    requires a.Finish? && Inv(s) && Enabled(s, a)
    ensures Inv(Apply(s, a))
  {
    hide Shape, Marks, Points, Collecting, Placed, LostApart, Known, Appending, Reading, Loading, Clock.Valid;
    ReadersAreLive(s);
    PeopleAreActive(s);
    hide Inv;
    FinishKeepsClock(s.clock, a.x);
    TimePasses(s, s.clock.Finish(a.x), Apply(s, a).readers);
  }

  lemma ReadersAreLive(s: State)
    requires Inv(s)
    ensures s.clock.Valid() && forall r :: r in s.readers ==> s.readers[r].v in s.clock.live
  {}

  lemma PeopleAreActive(s: State)
    requires Inv(s)
    ensures s.collector.Some? ==> s.collector.value.x in s.clock.active
    ensures forall k :: k in s.appenders ==> s.appenders[k].x in s.clock.active
  {}

  lemma CloseReaderKeeps(s: State, a: Action)
    requires a.CloseReader? && Inv(s) && Enabled(s, a)
    ensures Inv(Apply(s, a))
  {
    ReadersAreLive(s);
    PeopleAreActive(s);
    hide Inv, Clock.Valid;
    TimePasses(s, s.clock, Apply(s, a).readers);
  }

  lemma BeginCollectKeeps(s: State, a: Action)
    requires a.BeginCollect? && Inv(s) && Enabled(s, a)
    ensures Inv(Apply(s, a))
  {
    hide Clock.Valid, KeptEntries, WithItems, Landed, Starting, ReadOn, Replaces, CanReuse, CanRead, HasRoom, IsFull;
    ReadersAreLive(s);
    hide Inv;
    HorizonAdvances(s, a.env.horizon);
    CollectionBegins(s.(clock := s.clock.RemoveBelow(a.env.horizon)), a.x, a.env);
  }

  lemma HorizonAdvances(s: State, horizon: Xid)
    requires Inv(s) && s.clock.Valid() && s.clock.MayRemoveBelow(horizon)
    ensures Inv(s.(clock := s.clock.RemoveBelow(horizon)))
  {
    ReadersAreLive(s);
    PeopleAreActive(s);
    hide Inv;
    RemoveBelowKeepsClock(s.clock, horizon);
    hide Clock.Valid;
    TimePasses(s, s.clock.RemoveBelow(horizon), s.readers);
  }

  lemma CollectionBegins(s: State, x: Xid, env: Env)
    requires Inv(s) && s.collector == None && !Moving(s.appenders) && x in s.clock.active
    requires env.Sound() && env.horizon <= s.clock.oldest
    ensures Inv(s.(collector := Some(Collector(x, env, FIRST, FIRST, None))))
  {
    hide Points, Placed, LostApart, Known, Reading, Loading, Clock.Valid, Fresh;
  }

  lemma EndCollectKeeps(s: State, a: Action)
    requires a.EndCollect? && Inv(s) && Enabled(s, a)
    ensures Inv(Apply(s, a))
  {
    hide Clock.Valid, Points, Placed, LostApart, Known, Reading, Loading, Fresh;
  }

  // ---------------------------------------------------------------------------------------------
  // Changing what is on a page
  // ---------------------------------------------------------------------------------------------

  ghost predicate SameButItems(p: Pages, q: Pages) {
    && q.Keys == p.Keys
    && forall b :: b in p ==>
         && p[b].Page? == q[b].Page?
         && (p[b].Page? ==> q[b].next == p[b].next && q[b].xmax == p[b].xmax)
  }

  lemma ItemsOfOne(pages: Pages, b: BlockNo, items: Items)
    requires b in pages && pages[b].Page?
    ensures SameButItems(pages, WithItems(pages, b, items))
  {}

  lemma SameShape(p: Pages, q: Pages, o: Order)
    requires Shape(p, o) && SameButItems(p, q)
    ensures Shape(q, o)
  {}

  lemma SameMarks(p: Pages, q: Pages, o: Order, collector: Option<Collector>, freed: Xid, nextXid: Xid)
    requires Marks(p, o, collector, freed, nextXid) && SameButItems(p, q)
    ensures Marks(q, o, collector, freed, nextXid)
  {}

  lemma SamePoints(p: Pages, q: Pages, o: Order, freed: Xid)
    requires Points(p, o, freed) && SameButItems(p, q)
    ensures Points(q, o, freed)
  {
    hide Points, Order.NoneBetween, Order.NoneAfter;
    forall b | b in o.rank ensures PointsOn(q, o, freed, b) {
      PointsOf(p, o, freed, b);
    }
    PointsAll(q, o, freed);
  }

  lemma PointsOf(pages: Pages, o: Order, freed: Xid, b: BlockNo)
    requires Points(pages, o, freed) && b in o.rank
    ensures PointsOn(pages, o, freed, b)
  {}

  lemma PointsAll(pages: Pages, o: Order, freed: Xid)
    requires forall b :: b in o.rank ==> PointsOn(pages, o, freed, b)
    ensures Points(pages, o, freed)
  {}

  lemma SameCollecting(p: Pages, q: Pages, o: Order, collector: Option<Collector>, clock: Clock)
    requires Collecting(p, o, collector, clock) && SameButItems(p, q)
    ensures Collecting(q, o, collector, clock)
  {
    hide Follows, Before;
  }

  lemma SameAppending(p: Pages, q: Pages, o: Order, appenders: map<nat, Appender>, collector: Option<Collector>,
                      place: map<SegmentId, BlockNo>, active: set<Xid>)
    requires Appending(p, o, appenders, collector, place, active) && SameButItems(p, q)
    ensures Appending(q, o, appenders, collector, place, active)
  {
    hide IsMove;
  }

  lemma SameReading(p: Pages, q: Pages, o: Order, readers: map<nat, Reader>, live: map<nat, View>)
    requires Reading(p, o, readers, live) && SameButItems(p, q)
    ensures Reading(q, o, readers, live)
  {}

  /** All that does not depend on the items. */
  lemma ItemsKeep(s: State, pages: Pages)
    requires Inv(s) && SameButItems(s.pages, pages)
    ensures Shape(pages, s.o) && Marks(pages, s.o, s.collector, s.freed, s.clock.nextXid)
    ensures Points(pages, s.o, s.freed) && Collecting(pages, s.o, s.collector, s.clock)
    ensures Appending(pages, s.o, s.appenders, s.collector, s.place, s.clock.active)
    ensures Reading(pages, s.o, s.readers, s.clock.live)
  {
    hide Shape, Marks, Points, Collecting, Placed, LostApart, Known, Appending, Reading, Loading, Clock.Valid;
    SameShape(s.pages, pages, s.o);
    SameMarks(s.pages, pages, s.o, s.collector, s.freed, s.clock.nextXid);
    SamePoints(s.pages, pages, s.o, s.freed);
    SameCollecting(s.pages, pages, s.o, s.collector, s.clock);
    SameAppending(s.pages, pages, s.o, s.appenders, s.collector, s.place, s.clock.active);
    SameReading(s.pages, pages, s.o, s.readers, s.clock.live);
  }

  /** Changes to a page of the list do not concern what is lost. */
  lemma LiveIsNotLost(pages: Pages, o: Order, lost: set<SegmentId>, b: BlockNo, items: Items)
    requires Shape(pages, o) && LostApart(pages, o, lost) && b in o.live && b in pages && pages[b].Page?
    ensures LostApart(WithItems(pages, b, items), o, lost)
  {}

  lemma StartAppendKeeps(s: State, a: Action)
    requires a.StartAppend? && Inv(s) && Enabled(s, a)
    ensures Inv(Apply(s, a))
  {
    FirstIsRanked(s);
    hide Inv;
    StartKeeps(s, a.k, Appender(a.x, a.e, FIRST, None));
  }

  lemma FirstIsRanked(s: State)
    requires Inv(s)
    ensures FIRST in s.o.rank && FIRST in s.pages
  {
    hide Marks, Points, Collecting, Placed, LostApart, Known, Appending, Reading, Loading, Clock.Valid;
  }

  lemma StartKeeps(s: State, k: nat, u: Appender)
    requires Inv(s) && k !in s.appenders && u.held == None && u.e.segmentId !in s.ids && u.x in s.clock.active
    requires u.at in s.o.rank && u.at in s.pages
    ensures Inv(Starting(s, k, u))
  {
    hide Shape, Marks, Points, Collecting, Placed, LostApart, Known, Appending, Reading, Loading, Clock.Valid;
    ComingToo(s.appenders, k, u);
    SameTransit(s.pages, s.o.live, s.entries, s.place, s.appenders, s.appenders[k := u]);
    StartIsKnown(s, k, u);
    StartIsAppending(s, k, u);
  }

  lemma StartIsKnown(s: State, k: nat, u: Appender)
    requires Inv(s) && k !in s.appenders && u.held == None && u.e.segmentId !in s.ids
    ensures Known(s.entries, s.appenders[k := u], s.ids + {u.e.segmentId}, s.lost, s.removed)
  {
    hide Shape, Marks, Points, Collecting, Placed, LostApart, Appending, Reading, Loading, Clock.Valid, Coming;
    ComingToo(s.appenders, k, u);
  }

  lemma StartIsAppending(s: State, k: nat, u: Appender)
    requires Inv(s) && k !in s.appenders && u.held == None && u.x in s.clock.active
    requires u.at in s.o.rank && u.at in s.pages
    ensures Appending(s.pages, s.o, s.appenders[k := u], s.collector, s.place, s.clock.active)
  {
    hide Points, Collecting, Placed, LostApart, Known, Reading, Loading, Clock.Valid, IsMove;
  }

  lemma ComingToo(appenders: map<nat, Appender>, k: nat, u: Appender)
    requires k !in appenders && u.held == None
    ensures Coming(appenders[k := u], u.e.segmentId)
    ensures forall id :: Coming(appenders, id) ==> Coming(appenders[k := u], id)
    ensures forall id :: InTransit(appenders[k := u], id) <==> InTransit(appenders, id)
  {
    var after := appenders[k := u];
    assert after[k] == u;
    forall id ensures InTransit(after, id) <==> InTransit(appenders, id) {
      if j :| j in appenders && appenders[j].held.Some? && appenders[j].e.segmentId == id {
        assert j in after && after[j] == appenders[j];
      }
    }
    forall id | Coming(appenders, id) ensures Coming(appenders[k := u], id) {
      var j :| j in appenders && appenders[j].held == None && appenders[j].e.segmentId == id;
      assert appenders[k := u][j] == appenders[j];
    }
  }

  lemma SameTransit(pages: Pages, live: set<BlockNo>, entries: Entries, place: map<SegmentId, BlockNo>,
                    appenders: map<nat, Appender>, appenders': map<nat, Appender>)
    requires Placed(pages, live, entries, place, appenders)
    requires forall id :: InTransit(appenders', id) <==> InTransit(appenders, id)
    ensures Placed(pages, live, entries, place, appenders')
  {
    hide InTransit, Distinct;
  }

  lemma AdvanceKeeps(s: State, a: Action)
    requires a.Advance? && Inv(s) && Enabled(s, a)
    ensures Inv(Apply(s, a))
  {
    hide Shape, Marks, Points, Collecting, Placed, LostApart, Reading, Loading, Clock.Valid, IsMove, Appending;
    var u := s.appenders[a.k];
    var u' := u.(at := s.pages[u.at].next);
    SameHeld(s.appenders, a.k, u');
    SameTransit(s.pages, s.o.live, s.entries, s.place, s.appenders, s.appenders[a.k := u']);
    AdvanceIsAppending(s, a.k);
  }

  lemma SameHeld(appenders: map<nat, Appender>, k: nat, u: Appender)
    requires k in appenders && u.held == appenders[k].held && u.e == appenders[k].e
    ensures forall id :: InTransit(appenders[k := u], id) <==> InTransit(appenders, id)
    ensures forall id :: Coming(appenders[k := u], id) <==> Coming(appenders, id)
  {
    var after := appenders[k := u];
    forall id ensures InTransit(after, id) <==> InTransit(appenders, id) {
      if j :| j in appenders && appenders[j].held.Some? && appenders[j].e.segmentId == id {
        assert j in after && after[j].held.Some? && after[j].e.segmentId == id;
      }
    }
    forall id ensures Coming(after, id) <==> Coming(appenders, id) {
      if j :| j in appenders && appenders[j].held == None && appenders[j].e.segmentId == id {
        assert j in after && after[j].held == None && after[j].e.segmentId == id;
      }
    }
  }

  lemma AdvanceIsAppending(s: State, k: nat)
    requires Inv(s) && k in s.appenders && s.appenders[k].at in s.pages && s.pages[s.appenders[k].at].Page?
    requires s.pages[s.appenders[k].at].next in s.pages
    ensures var u := s.appenders[k];
            Appending(s.pages, s.o, s.appenders[k := u.(at := s.pages[u.at].next)], s.collector, s.place,
                      s.clock.active)
  {
    hide Placed, LostApart, Known, Reading, Loading, Marks, Points, Clock.Valid, Collecting, PointsOn;
    var u := s.appenders[k];
    if u.held.Some? {
      NextWhileIdle(s, u.at);
    }
  }

  /** With no collection under way, the pointer leads from a page of the list to a later one. */
  lemma NextWhileIdle(s: State, b: BlockNo)
    requires Inv(s) && s.collector == None && b in s.o.live && b in s.pages && s.pages[b].Page?
    requires s.pages[b].next in s.pages
    ensures s.pages[b].next in s.o.live && s.o.Rank(b) < s.o.Rank(s.pages[b].next)
  {
    hide Placed, LostApart, Known, Reading, Loading, Appending, Marks, Clock.Valid, Order.NoneAfter;
    hide Order.NoneBetween;
    PointsOf(s.pages, s.o, s.freed, b);
  }

  // Moving and changing an entry.

  lemma StartMoveKeeps(s: State, a: Action)
    requires a.StartMove? && Inv(s) && Enabled(s, a)
    ensures Inv(Apply(s, a))
  {
    hide Shape, Marks, Points, Collecting, Placed, LostApart, Known, Appending, Reading, Loading, Clock.Valid;
    var items := s.pages[a.b].items;
    var u := Appender(a.x, a.e, a.b, Some(a.b));
    EntryOnPage(s, a.b, a.offset);
    ItemsOfOne(s.pages, a.b, DeleteItem(items, a.offset));
    ItemsKeep(s, WithItems(s.pages, a.b, DeleteItem(items, a.offset)));
    LiveIsNotLost(s.pages, s.o, s.lost, a.b, DeleteItem(items, a.offset));
    MoveIsPlaced(s.pages, s.o.live, s.entries, s.place, s.appenders, a.b, a.offset, a.k, u);
    MoveIsKnown(s, a.k, u);
    MoveIsAppending(s, WithItems(s.pages, a.b, DeleteItem(items, a.offset)), a.k, u);
    ChangeIsLoading(s, a.x, a.e);
  }

  lemma EntryOnPage(s: State, b: BlockNo, offset: nat)
    requires Inv(s) && b in s.o.live && b in s.pages && s.pages[b].Page? && offset < |s.pages[b].items|
    ensures var e := s.pages[b].items[offset];
            && e.segmentId in s.entries && s.entries[e.segmentId] == e && e.segmentId in s.place
            && s.place[e.segmentId] == b && !InTransit(s.appenders, e.segmentId)
  {
    hide Shape, Marks, Points, Collecting, LostApart, Known, Appending, Reading, Loading, Clock.Valid, InTransit;
  }

  /** Only the entry `id` and the page `b` change. */
  ghost predicate Agree(entries: Entries, entries': Entries, place: map<SegmentId, BlockNo>,
                        place': map<SegmentId, BlockNo>, appenders: map<nat, Appender>,
                        appenders': map<nat, Appender>, id: SegmentId)
  {
    forall i :: i != id ==>
      && (i in entries <==> i in entries') && (i in entries ==> entries[i] == entries'[i])
      && (i in place <==> i in place') && (i in place ==> place[i] == place'[i])
      && (InTransit(appenders, i) <==> InTransit(appenders', i))
  }

  lemma OtherPage(items: Items, p: BlockNo, entries: Entries, entries': Entries, place: map<SegmentId, BlockNo>,
                  place': map<SegmentId, BlockNo>, appenders: map<nat, Appender>, appenders': map<nat, Appender>,
                  id: SegmentId)
    requires PageHas(items, p, entries, place, appenders)
    requires Agree(entries, entries', place, place', appenders, appenders', id)
    requires id in entries ==> id in place && (place[id] != p || InTransit(appenders, id))
    ensures PageHas(items, p, entries', place', appenders')
  {
    hide InTransit, Distinct;
  }

  lemma PlacedChange(pages: Pages, live: set<BlockNo>, entries: Entries, entries': Entries,
                     place: map<SegmentId, BlockNo>, place': map<SegmentId, BlockNo>, appenders: map<nat, Appender>,
                     appenders': map<nat, Appender>, b: BlockNo, items: Items, id: SegmentId)
    requires Placed(pages, live, entries, place, appenders) && b in live && b in pages && pages[b].Page?
    requires Agree(entries, entries', place, place', appenders, appenders', id)
    requires id in entries ==> id in place && (place[id] == b || InTransit(appenders, id))
    requires PageHas(items, b, entries', place', appenders')
    requires forall e :: e in pages[b].items && e.segmentId != id ==> e in items
    requires id in entries' ==>
      && entries'[id].segmentId == id && id in place' && place'[id] in live
      && (InTransit(appenders', id) || (place'[id] == b && entries'[id] in items))
    ensures Placed(WithItems(pages, b, items), live, entries', place', appenders')
  {
    hide InTransit, Distinct, PageHas;
    var after := WithItems(pages, b, items);
    forall p | p in live && p in after && after[p].Page?
      ensures PageHas(after[p].items, p, entries', place', appenders')
    {
      if p != b {
        OtherPage(pages[p].items, p, entries, entries', place, place', appenders, appenders', id);
      }
    }
  }

  lemma WithoutOne(items: Items, offset: nat)
    requires Distinct(items) && offset < |items|
    ensures Distinct(DeleteItem(items, offset))
    ensures forall e :: e in DeleteItem(items, offset) <==> e in items && e.segmentId != items[offset].segmentId
  {
    var less := DeleteItem(items, offset);
    forall e | e in items && e.segmentId != items[offset].segmentId ensures e in less {
      var i :| 0 <= i < |items| && items[i] == e;
      assert less[if i < offset then i else i - 1] == e;
    }
  }

  lemma WithChanged(items: Items, offset: nat, e: SegmentMetaEntry)
    requires Distinct(items) && offset < |items| && items[offset].segmentId == e.segmentId
    ensures Distinct(items[offset := e])
    ensures forall x :: x in items[offset := e] <==> x == e || (x in items && x.segmentId != e.segmentId)
  {
    var after := items[offset := e];
    assert after[offset] == e;
    forall x | x in items && x.segmentId != e.segmentId ensures x in after {
      var i :| 0 <= i < |items| && items[i] == x;
      assert after[i] == x;
    }
  }

  lemma WithOneMore(items: Items, e: SegmentMetaEntry)
    requires Distinct(items) && forall x :: x in items ==> x.segmentId != e.segmentId
    ensures Distinct(items + [e])
    ensures forall x :: x in items + [e] <==> x in items || x == e
  {}

  lemma MoveIsPlaced(pages: Pages, live: set<BlockNo>, entries: Entries, place: map<SegmentId, BlockNo>,
                     appenders: map<nat, Appender>, b: BlockNo, offset: nat, k: nat, u: Appender)
    requires Placed(pages, live, entries, place, appenders) && k !in appenders && u.held.Some?
    requires b in live && b in pages && pages[b].Page? && offset < |pages[b].items|
    requires pages[b].items[offset].segmentId == u.e.segmentId
    ensures Placed(WithItems(pages, b, DeleteItem(pages[b].items, offset)), live,
                   entries[u.e.segmentId := u.e], place, appenders[k := u])
  {
    var id, appenders' := u.e.segmentId, appenders[k := u];
    var less := DeleteItem(pages[b].items, offset);
    assert PageHas(pages[b].items, b, entries, place, appenders);
    TransitToo(appenders, k, u);
    WithoutOne(pages[b].items, offset);
    hide InTransit, Distinct, Placed;
    assert id in entries && id in place && place[id] == b by {
      assert pages[b].items[offset] in pages[b].items;
    }
    PlaceIsLive(pages, live, entries, place, appenders, id);
    PlacedChange(pages, live, entries, entries[id := u.e], place, place, appenders, appenders', b, less, id);
  }

  lemma PlaceIsLive(pages: Pages, live: set<BlockNo>, entries: Entries, place: map<SegmentId, BlockNo>,
                    appenders: map<nat, Appender>, id: SegmentId)
    requires Placed(pages, live, entries, place, appenders) && id in entries
    ensures id in place && place[id] in live
  {}

  lemma TransitToo(appenders: map<nat, Appender>, k: nat, u: Appender)
    requires k !in appenders && u.held.Some?
    ensures forall id :: InTransit(appenders[k := u], id) <==> InTransit(appenders, id) || id == u.e.segmentId
    ensures forall id :: Coming(appenders[k := u], id) <==> Coming(appenders, id)
  {
    var after := appenders[k := u];
    assert after[k] == u;
    forall id ensures InTransit(after, id) <==> InTransit(appenders, id) || id == u.e.segmentId {
      if j :| j in appenders && appenders[j].held.Some? && appenders[j].e.segmentId == id {
        assert j in after && after[j] == appenders[j];
      }
    }
    forall id ensures Coming(after, id) <==> Coming(appenders, id) {
      if j :| j in appenders && appenders[j].held == None && appenders[j].e.segmentId == id {
        assert j in after && after[j] == appenders[j];
      }
    }
  }

  lemma MoveIsKnown(s: State, k: nat, u: Appender)
    requires Inv(s) && k !in s.appenders && u.held.Some? && u.e.segmentId in s.entries
    requires !InTransit(s.appenders, u.e.segmentId)
    ensures Known(s.entries[u.e.segmentId := u.e], s.appenders[k := u], s.ids, s.lost, s.removed)
  {
    hide Shape, Marks, Points, Collecting, Placed, LostApart, Appending, Reading, Loading, Clock.Valid, Coming;
    TransitToo(s.appenders, k, u);
    forall j | j in s.appenders ensures s.appenders[j].e.segmentId != u.e.segmentId {
      assert s.appenders[j].held.Some? ==> InTransit(s.appenders, s.appenders[j].e.segmentId);
    }
  }

  lemma MoveIsAppending(s: State, pages: Pages, k: nat, u: Appender)
    requires Inv(s) && k !in s.appenders && u.held == Some(u.at) && u.x in s.clock.active && s.collector == None
    requires !Moving(s.appenders) && u.at in s.o.live && u.e.segmentId in s.place && s.place[u.e.segmentId] == u.at
    requires Appending(pages, s.o, s.appenders, s.collector, s.place, s.clock.active)
    requires Shape(pages, s.o) && Marks(pages, s.o, s.collector, s.freed, s.clock.nextXid)
    ensures Appending(pages, s.o, s.appenders[k := u], s.collector, s.place, s.clock.active)
  {
    hide Inv;
  }

  /** An entry that a reader owes may get the xmax of a running transaction, and is still owed. */
  lemma ChangeIsLoading(s: State, x: Xid, e: SegmentMetaEntry)
    requires Inv(s) && x in s.clock.active && e.segmentId in s.entries && Replaces(s.entries[e.segmentId], e, x)
    ensures Loading(s.o, s.readers, s.entries[e.segmentId := e], s.place, s.clock.live)
  {
    hide Shape, Marks, Points, Collecting, Placed, LostApart, Known, Appending, Reading, Clock.Valid, LoadedSoFar;
    RunningIsYounger(s.clock, x);
  }

  lemma UpdateKeeps(s: State, a: Action)
    requires a.Update? && Inv(s) && Enabled(s, a)
    ensures Inv(Apply(s, a))
  {
    hide Shape, Marks, Points, Collecting, Placed, LostApart, Known, Appending, Reading, Loading, Clock.Valid;
    var items := s.pages[a.b].items[a.offset := a.e];
    EntryOnPage(s, a.b, a.offset);
    ItemsOfOne(s.pages, a.b, items);
    ItemsKeep(s, WithItems(s.pages, a.b, items));
    LiveIsNotLost(s.pages, s.o, s.lost, a.b, items);
    UpdateIsPlaced(s.pages, s.o.live, s.entries, s.place, s.appenders, a.b, a.offset, a.e);
    UpdateIsKnown(s, a.e);
    ChangeIsLoading(s, a.x, a.e);
  }

  lemma UpdateIsPlaced(pages: Pages, live: set<BlockNo>, entries: Entries, place: map<SegmentId, BlockNo>,
                       appenders: map<nat, Appender>, b: BlockNo, offset: nat, e: SegmentMetaEntry)
    requires Placed(pages, live, entries, place, appenders)
    requires b in live && b in pages && pages[b].Page? && offset < |pages[b].items|
    requires pages[b].items[offset].segmentId == e.segmentId
    ensures Placed(WithItems(pages, b, pages[b].items[offset := e]), live, entries[e.segmentId := e], place, appenders)
  {
    var id, after := e.segmentId, pages[b].items[offset := e];
    assert PageHas(pages[b].items, b, entries, place, appenders);
    WithChanged(pages[b].items, offset, e);
    hide InTransit, Distinct, Placed;
    assert id in entries && id in place && place[id] == b && !InTransit(appenders, id) by {
      assert pages[b].items[offset] in pages[b].items;
    }
    PlaceIsLive(pages, live, entries, place, appenders, id);
    PlacedChange(pages, live, entries, entries[id := e], place, place, appenders, appenders, b, after, id);
  }

  lemma UpdateIsKnown(s: State, e: SegmentMetaEntry)
    requires Inv(s) && e.segmentId in s.entries && !Moving(s.appenders)
    ensures Known(s.entries[e.segmentId := e], s.appenders, s.ids, s.lost, s.removed)
  {
    hide Shape, Marks, Points, Collecting, Placed, LostApart, Appending, Reading, Loading, Clock.Valid, Coming;
    assert s.entries[e.segmentId := e].Keys == s.entries.Keys;
  }

  // Appending an entry.

  lemma AppendKeeps(s: State, a: Action)
    requires a.Append? && Inv(s) && Enabled(s, a)
    ensures Inv(Apply(s, a))
  {
    LandKeeps(s, a.k);
    if a.more.Some? {
      LandedIsRanked(s, a.k, a.more.value);
      hide Inv, Landed;
      var u := s.appenders[a.k];
      StartKeeps(Landed(s, a.k), a.k, Appender(u.x, a.more.value, u.at, None));
    }
  }

  lemma LandedIsRanked(s: State, k: nat, e: SegmentMetaEntry)
    requires Inv(s) && HasRoom(s, k) && s.appenders[k].held == None && IsNew(s, s.appenders[k].x, e)
    ensures var t := Landed(s, k);
            && k !in t.appenders && s.appenders[k].x in t.clock.active && e.segmentId !in t.ids
            && s.appenders[k].at in t.o.rank && s.appenders[k].at in t.pages
  {
    hide Shape, Marks, Points, Collecting, Placed, LostApart, Known, Reading, Loading, Clock.Valid, IsMove;
  }

  lemma LandKeeps(s: State, k: nat)
    requires Inv(s) && HasRoom(s, k)
    ensures Inv(Landed(s, k))
  {
    hide Inv, Landed;
    if s.appenders[k].held.Some? {
      MoveLandsKeeps(s, k);
    } else if s.appenders[k].at in s.o.live {
      AppendLiveKeeps(s, k);
    } else {
      AppendCutKeeps(s, k);
    }
  }

  lemma WithoutAppender(appenders: map<nat, Appender>, k: nat)
    requires k in appenders
    requires forall i, j :: i in appenders && j in appenders && i != j ==>
      appenders[i].e.segmentId != appenders[j].e.segmentId
    ensures var id := appenders[k].e.segmentId;
            && (forall i :: InTransit(appenders - {k}, i) <==> InTransit(appenders, i) && i != id)
            && (forall i :: Coming(appenders - {k}, i) <==> Coming(appenders, i) && i != id)
            && (appenders[k].held == None ==> !InTransit(appenders, id))
            && (appenders[k].held.Some? ==> InTransit(appenders, id) && !Coming(appenders, id))
  {
    var id, less := appenders[k].e.segmentId, appenders - {k};
    forall i ensures InTransit(less, i) <==> InTransit(appenders, i) && i != id {
      if j :| j in appenders && appenders[j].held.Some? && appenders[j].e.segmentId == i {
        if j != k {
          assert j in less && less[j] == appenders[j];
        }
      }
    }
    forall i ensures Coming(less, i) <==> Coming(appenders, i) && i != id {
      if j :| j in appenders && appenders[j].held == None && appenders[j].e.segmentId == i {
        if j != k {
          assert j in less && less[j] == appenders[j];
        }
      }
    }
  }

  lemma OneAppenderEach(s: State, k: nat)
    requires Inv(s) && k in s.appenders
    ensures forall i, j :: i in s.appenders && j in s.appenders && i != j ==>
      s.appenders[i].e.segmentId != s.appenders[j].e.segmentId
    ensures s.appenders[k].e.segmentId in s.ids
    ensures s.appenders[k].held == None ==>
      var id := s.appenders[k].e.segmentId; id !in s.entries && id !in s.lost && id !in s.removed
    ensures s.appenders[k].at in s.o.rank
    ensures s.appenders[k].held.Some? ==> IsMove(s.appenders[k], s.o, s.collector, s.place)
  {
    hide Shape, Marks, Points, Collecting, Placed, LostApart, Reading, Loading, Clock.Valid, IsMove, Coming;
  }

  lemma LessIsAppending(pages: Pages, o: Order, appenders: map<nat, Appender>, k: nat, collector: Option<Collector>,
                        place: map<SegmentId, BlockNo>, place': map<SegmentId, BlockNo>, active: set<Xid>)
    requires Appending(pages, o, appenders, collector, place, active) && k in appenders
    requires forall j :: j in appenders && j != k && appenders[j].held.Some? && appenders[j].e.segmentId in place ==>
      appenders[j].e.segmentId in place' && place'[appenders[j].e.segmentId] == place[appenders[j].e.segmentId]
    ensures Appending(pages, o, appenders - {k}, collector, place', active)
  {
    hide Fresh;
  }

  lemma AppendLiveKeeps(s: State, k: nat)
    requires Inv(s) && HasRoom(s, k)
    requires s.appenders[k].held == None && s.appenders[k].at in s.o.live
    ensures Inv(Landed(s, k))
  {
    hide Shape, Marks, Points, Collecting, Placed, LostApart, Known, Appending, Reading, Loading, Clock.Valid;
    hide AppendItem;
    var u := s.appenders[k];
    var items := s.pages[u.at].items + [u.e];
    OneAppenderEach(s, k);
    WithoutAppender(s.appenders, k);
    ItemsOfOne(s.pages, u.at, items);
    ItemsKeep(s, WithItems(s.pages, u.at, items));
    LiveIsNotLost(s.pages, s.o, s.lost, u.at, items);
    LandIsPlaced(s.pages, s.o.live, s.entries, s.place, s.appenders, k);
    LandIsKnown(s, k);
    LessIsAppending(WithItems(s.pages, u.at, items), s.o, s.appenders, k, s.collector, s.place,
                    s.place[u.e.segmentId := u.at], s.clock.active);
    NewIsLoading(s, u.e, u.at);
  }

  lemma LandIsPlaced(pages: Pages, live: set<BlockNo>, entries: Entries, place: map<SegmentId, BlockNo>,
                     appenders: map<nat, Appender>, k: nat)
    requires Placed(pages, live, entries, place, appenders) && k in appenders
    requires appenders[k].at in live && appenders[k].at in pages && pages[appenders[k].at].Page?
    requires forall i, j :: i in appenders && j in appenders && i != j ==>
      appenders[i].e.segmentId != appenders[j].e.segmentId
    requires appenders[k].held == None ==> appenders[k].e.segmentId !in entries
    requires appenders[k].held.Some? ==> appenders[k].e.segmentId in entries
                                         && entries[appenders[k].e.segmentId] == appenders[k].e
    ensures var u := appenders[k];
            Placed(WithItems(pages, u.at, pages[u.at].items + [u.e]), live, entries[u.e.segmentId := u.e],
                   place[u.e.segmentId := u.at], appenders - {k})
  {
    var u := appenders[k];
    var id, b := u.e.segmentId, u.at;
    var entries', place', less := entries[id := u.e], place[id := b], appenders - {k};
    WithoutAppender(appenders, k);
    assert PageHas(pages[b].items, b, entries, place, appenders);
    assert id in entries ==> id in place;
    WithOneMore(pages[b].items, u.e);
    hide InTransit, Distinct, Placed;
    PlacedChange(pages, live, entries, entries', place, place', appenders, less, b, pages[b].items + [u.e], id);
  }

  lemma LandIsKnown(s: State, k: nat)
    requires Inv(s) && k in s.appenders && s.appenders[k].held == None
    ensures Known(s.entries[s.appenders[k].e.segmentId := s.appenders[k].e], s.appenders - {k}, s.ids, s.lost,
                  s.removed)
  {
    hide Shape, Marks, Points, Collecting, Placed, LostApart, Appending, Reading, Loading, Clock.Valid, Coming;
    hide InTransit;
    WithoutAppender(s.appenders, k);
    var less := s.appenders - {k};
    assert forall j :: j in less ==> j in s.appenders && less[j] == s.appenders[j];
  }

  lemma NewIsLoading(s: State, e: SegmentMetaEntry, b: BlockNo)
    requires Inv(s) && e.segmentId !in s.entries
    ensures Loading(s.o, s.readers, s.entries[e.segmentId := e], s.place[e.segmentId := b], s.clock.live)
  {
    hide Shape, Marks, Points, Collecting, Placed, LostApart, Known, Appending, Reading, Clock.Valid, LoadedSoFar;
  }

  lemma AppendCutKeeps(s: State, k: nat)
    requires Inv(s) && HasRoom(s, k)
    requires s.appenders[k].held == None && s.appenders[k].at !in s.o.live
    ensures Inv(Landed(s, k))
  {
    hide Shape, Marks, Points, Collecting, Placed, LostApart, Known, Appending, Reading, Loading, Clock.Valid;
    hide AppendItem;
    var u := s.appenders[k];
    var items := s.pages[u.at].items + [u.e];
    OneAppenderEach(s, k);
    WithoutAppender(s.appenders, k);
    ItemsOfOne(s.pages, u.at, items);
    ItemsKeep(s, WithItems(s.pages, u.at, items));
    LostIsApart(s.pages, s.o, s.lost, u.at, u.e);
    LostIsPlaced(s.pages, s.o.live, s.entries, s.place, s.appenders, s.appenders - {k}, u.at, items);
    LostIsKnown(s, k);
    LessIsAppending(WithItems(s.pages, u.at, items), s.o, s.appenders, k, s.collector, s.place,
                    s.place, s.clock.active);
  }

  lemma AstrayKeeps(s: State, a: Action)
    requires a.Astray? && Inv(s) && Enabled(s, a)
    ensures Inv(Apply(s, a))
  {
    hide Shape, Marks, Points, Collecting, Placed, LostApart, Known, Appending, Reading, Loading, Clock.Valid;
    hide AppendItem;
    AstrayIsOff(s, a.k);
    OneAppenderEach(s, a.k);
    WithoutAppender(s.appenders, a.k);
    StillApart(s.pages, s.o, s.lost, s.lost + {s.appenders[a.k].e.segmentId});
    SameTransit(s.pages, s.o.live, s.entries, s.place, s.appenders, s.appenders - {a.k});
    LostIsKnown(s, a.k);
    LessIsAppending(s.pages, s.o, s.appenders, a.k, s.collector, s.place, s.place, s.clock.active);
  }

  /** Only from a page off the list does an append go to a page that is somebody else's. */
  lemma AstrayIsOff(s: State, k: nat)
    requires Inv(s) && GoesAstray(s, k)
    ensures s.appenders[k].held == None && s.appenders[k].at in s.o.rank && !s.o.Linked(s.appenders[k].at)
  {
    hide Marks, Collecting, Placed, LostApart, Known, Reading, Loading, Clock.Valid, Order.NoneAfter;
    hide Order.NoneBetween, AppendItem;
    PointsOf(s.pages, s.o, s.freed, s.appenders[k].at);
  }

  lemma StillApart(pages: Pages, o: Order, lost: set<SegmentId>, lost': set<SegmentId>)
    requires LostApart(pages, o, lost) && lost <= lost'
    ensures LostApart(pages, o, lost')
  {}

  lemma LostIsApart(pages: Pages, o: Order, lost: set<SegmentId>, b: BlockNo, e: SegmentMetaEntry)
    requires LostApart(pages, o, lost) && b in pages && pages[b].Page?
    ensures LostApart(WithItems(pages, b, pages[b].items + [e]), o, lost + {e.segmentId})
  {
    var after := WithItems(pages, b, pages[b].items + [e]);
    forall p, x | o.Cut(p) && p in after && after[p].Page? && x in after[p].items
      ensures x.segmentId in lost + {e.segmentId}
    {
      assert x in pages[p].items || (p == b && x == e);
    }
  }

  lemma LostIsPlaced(pages: Pages, live: set<BlockNo>, entries: Entries, place: map<SegmentId, BlockNo>,
                     appenders: map<nat, Appender>, appenders': map<nat, Appender>, b: BlockNo, items: Items)
    requires Placed(pages, live, entries, place, appenders) && b !in live && b in pages && pages[b].Page?
    requires forall id :: id in entries ==> (InTransit(appenders', id) <==> InTransit(appenders, id))
    ensures Placed(WithItems(pages, b, items), live, entries, place, appenders')
  {
    hide InTransit, Distinct;
    var after := WithItems(pages, b, items);
    forall p | p in live && p in after && after[p].Page?
      ensures PageHas(after[p].items, p, entries, place, appenders')
    {
      assert PageHas(pages[p].items, p, entries, place, appenders);
    }
  }

  lemma LostIsKnown(s: State, k: nat)
    requires Inv(s) && k in s.appenders && s.appenders[k].held == None
    ensures Known(s.entries, s.appenders - {k}, s.ids, s.lost + {s.appenders[k].e.segmentId}, s.removed)
  {
    hide Shape, Marks, Points, Collecting, Placed, LostApart, Appending, Reading, Loading, Clock.Valid, Coming;
    hide InTransit;
    WithoutAppender(s.appenders, k);
    var less := s.appenders - {k};
    assert forall j :: j in less ==> j in s.appenders && less[j] == s.appenders[j];
  }

  lemma MoveLandsKeeps(s: State, k: nat)
    requires Inv(s) && HasRoom(s, k) && s.appenders[k].held.Some?
    ensures Inv(Landed(s, k))
  {
    hide Shape, Marks, Points, Collecting, Placed, LostApart, Known, Appending, Reading, Loading, Clock.Valid;
    hide AppendItem;
    var u := s.appenders[k];
    var items := s.pages[u.at].items + [u.e];
    OneAppenderEach(s, k);
    MovedIsListed(s, k);
    WithoutAppender(s.appenders, k);
    ItemsOfOne(s.pages, u.at, items);
    ItemsKeep(s, WithItems(s.pages, u.at, items));
    LiveIsNotLost(s.pages, s.o, s.lost, u.at, items);
    LandIsPlaced(s.pages, s.o.live, s.entries, s.place, s.appenders, k);
    assert s.entries[u.e.segmentId := u.e] == s.entries;
    MovedIsKnown(s, k);
    LessIsAppending(WithItems(s.pages, u.at, items), s.o, s.appenders, k, s.collector, s.place,
                    s.place[u.e.segmentId := u.at], s.clock.active);
    MovedIsLoading(s, u.e.segmentId, u.held.value, u.at);
    NotedIsReading(WithItems(s.pages, u.at, items), s.o, s.readers, s.clock.live, u.e.segmentId, u.held.value, u.at);
  }

  lemma MovedIsListed(s: State, k: nat)
    requires Inv(s) && k in s.appenders && s.appenders[k].held.Some?
    ensures s.appenders[k].e.segmentId in s.entries && s.entries[s.appenders[k].e.segmentId] == s.appenders[k].e
  {
    hide Shape, Marks, Points, Collecting, Placed, LostApart, Appending, Reading, Loading, Clock.Valid, Coming;
  }

  lemma MovedIsKnown(s: State, k: nat)
    requires Inv(s) && k in s.appenders && s.appenders[k].held.Some?
    ensures Known(s.entries, s.appenders - {k}, s.ids, s.lost, s.removed)
  {
    hide Shape, Marks, Points, Collecting, Placed, LostApart, Appending, Reading, Loading, Clock.Valid, Coming;
    hide InTransit;
    WithoutAppender(s.appenders, k);
    var less := s.appenders - {k};
    assert forall j :: j in less ==> j in s.appenders && less[j] == s.appenders[j];
  }

  lemma MovedIsLoading(s: State, id: SegmentId, q: BlockNo, q': BlockNo)
    requires Inv(s) && id in s.place && s.place[id] == q && s.o.Rank(q) <= s.o.Rank(q')
    ensures Loading(s.o, Noting(s.readers, s.o, id, q, q'), s.entries, s.place[id := q'], s.clock.live)
  {
    hide Shape, Marks, Points, Collecting, Placed, LostApart, Known, Appending, Reading, Clock.Valid;
  }

  lemma NotedIsReading(pages: Pages, o: Order, readers: map<nat, Reader>, live: map<nat, View>, id: SegmentId,
                       q: BlockNo, q': BlockNo)
    requires Reading(pages, o, readers, live)
    ensures Reading(pages, o, Noting(readers, o, id, q, q'), live)
  {
    hide Fresh, Order.Ahead;
  }

  // A page is made behind the last one.

  lemma ExtendKeeps(s: State, a: Action)
    requires a.Extend? && Inv(s) && Enabled(s, a)
    ensures Inv(Apply(s, a))
  {
    hide Shape, Marks, Points, Collecting, Placed, LostApart, Known, Appending, Reading, Loading, Clock.Valid;
    hide AppendItem, Order.Extend;
    var u := s.appenders[a.k];
    var pages, o := Extending(s.pages, u.at, a.b), s.o.Extend(u.at, a.b);
    OneAppenderEach(s, a.k);
    ExtendedShape(s, u.at, a.b);
    ExtendedMarks(s, u.at, a.b);
    ExtendedPoints(s, a.k, u.at, a.b);
    ExtendedCollecting(s, u.at, a.b);
    ExtendedPlaced(s, u.at, a.b);
    SameHeld(s.appenders, a.k, u.(at := a.b));
    SameTransit(pages, o.live, s.entries, s.place, s.appenders, s.appenders[a.k := u.(at := a.b)]);
    SameKnown(s, a.k, u.(at := a.b));
    ExtendedAppending(s, a.k, a.b);
    ExtendedReading(s, u.at, a.b);
    ExtendedLoading(s, u.at, a.b);
  }

  ghost function Extending(pages: Pages, p: BlockNo, b: BlockNo): Pages
    requires p in pages && pages[p].Page?
  {
    pages[p := pages[p].(next := b)][b := FreshPage]
  }

  ghost predicate CanExtend(s: State, p: BlockNo, b: BlockNo) {
    && p in s.o.rank && p in s.pages && s.pages[p].Page? && s.pages[p].next == INVALID_BLOCK
    && b !in s.pages && 0 < b < INVALID_BLOCK
  }

  lemma ExtendedShape(s: State, p: BlockNo, b: BlockNo)
    requires Inv(s) && CanExtend(s, p, b)
    ensures Shape(Extending(s.pages, p, b), s.o.Extend(p, b))
  {
    hide Marks, Points, Collecting, Placed, LostApart, Known, Appending, Reading, Loading, Clock.Valid;
  }

  lemma ExtendedMarks(s: State, p: BlockNo, b: BlockNo)
    requires Inv(s) && CanExtend(s, p, b)
    ensures Marks(Extending(s.pages, p, b), s.o.Extend(p, b), s.collector, s.freed, s.clock.nextXid)
  {
    hide Points, Collecting, Placed, LostApart, Known, Appending, Reading, Loading, Clock.Valid;
  }

  /** The last page of the list is the last one on it for good, unless the collection has emptied the end. */
  lemma LastOfList(s: State, p: BlockNo)
    requires Inv(s) && p in s.pages && s.pages[p].Page? && s.pages[p].next == INVALID_BLOCK
    ensures p in s.o.live ==> s.o.NoneAfter(p)
    ensures p in s.o.live && s.collector.Some? ==> s.collector.value.pending != Some(INVALID_BLOCK)
    ensures p in s.o.gap ==> s.collector.Some? && s.collector.value.pending == Some(INVALID_BLOCK)
    ensures forall x :: p in s.o.live && s.o.Linked(x) && x != p && x in s.pages && s.pages[x].Page? ==>
      s.pages[x].next != INVALID_BLOCK
  {
    hide Marks, Placed, LostApart, Known, Appending, Reading, Loading, Clock.Valid;
    assert p in s.o.live + s.o.gap ==> PointsOn(s.pages, s.o, s.freed, p);
    forall x | p in s.o.live && s.o.Linked(x) && x != p && x in s.pages && s.pages[x].Page?
      ensures s.pages[x].next != INVALID_BLOCK
    {
      PointsOf(s.pages, s.o, s.freed, x);
    }
  }

  lemma ExtendedPoints(s: State, k: nat, p: BlockNo, b: BlockNo)
    requires Inv(s) && CanExtend(s, p, b) && k in s.appenders && s.appenders[k].at == p
    ensures Points(Extending(s.pages, p, b), s.o.Extend(p, b), s.freed)
  {
    hide Marks, Points, Collecting, Placed, LostApart, Known, Appending, Reading, Loading, Clock.Valid;
    hide Order.NoneAfter, Order.NoneBetween, Order.Extend, Onward;
    var pages, o := Extending(s.pages, p, b), s.o.Extend(p, b);
    ExtendedSets(s.o, p, b);
    AtIsRanked(s, k);
    PointsOf(s.pages, s.o, s.freed, p);
    LastOfList(s, p);
    forall x | x in o.rank ensures PointsOn(pages, o, s.freed, x) {
      if x == b {
        NewIsLast(s, p, b);
      } else if x == p {
        PointsToNew(s, p, b);
      } else {
        PointsOf(s.pages, s.o, s.freed, x);
        StillPoints(s, p, b, x);
      }
    }
    PointsAll(pages, o, s.freed);
  }

  lemma AtIsRanked(s: State, k: nat)
    requires Inv(s) && k in s.appenders
    ensures s.appenders[k].at in s.o.rank && s.appenders[k].at in s.pages
  {
    hide Shape, Marks, Points, Collecting, Placed, LostApart, Known, Reading, Loading, Clock.Valid, IsMove;
  }

  lemma NewIsLast(s: State, p: BlockNo, b: BlockNo)
    requires Inv(s) && CanExtend(s, p, b)
    ensures PointsOn(Extending(s.pages, p, b), s.o.Extend(p, b), s.freed, b)
  {
    hide Marks, Points, Collecting, Placed, LostApart, Known, Appending, Reading, Loading, Clock.Valid;
  }

  lemma PointsToNew(s: State, p: BlockNo, b: BlockNo)
    requires Inv(s) && CanExtend(s, p, b) && PointsOn(s.pages, s.o, s.freed, p)
    ensures PointsOn(Extending(s.pages, p, b), s.o.Extend(p, b), s.freed, p)
  {
    hide Marks, Points, Collecting, Placed, LostApart, Known, Appending, Reading, Loading, Clock.Valid;
  }

  lemma StillPoints(s: State, p: BlockNo, b: BlockNo, x: BlockNo)
    requires Inv(s) && CanExtend(s, p, b) && PointsOn(s.pages, s.o, s.freed, x) && x in s.o.rank && x != p && x != b
    requires p in s.o.live && s.o.Linked(x) ==> s.pages[x].next != INVALID_BLOCK
    ensures PointsOn(Extending(s.pages, p, b), s.o.Extend(p, b), s.freed, x)
  {
    hide Shape, Marks, Points, Collecting, Placed, LostApart, Known, Appending, Reading, Loading, Clock.Valid, Fresh;
    hide PointsOn, Order.Extend, Extending;
    StillPointsOn(s.pages, s.o, s.freed, p, b, x);
  }

  lemma StillPointsOn(pages: Pages, o: Order, freed: Xid, p: BlockNo, b: BlockNo, x: BlockNo)
    requires Shape(pages, o) && p in o.rank && p in pages && pages[p].Page? && pages[p].next == INVALID_BLOCK
    requires b !in pages && 0 < b < INVALID_BLOCK
    requires PointsOn(pages, o, freed, x) && x in o.rank && x != p && x != b
    requires p in o.live && o.Linked(x) ==> pages[x].next != INVALID_BLOCK
    ensures PointsOn(Extending(pages, p, b), o.Extend(p, b), freed, x)
  {
    hide Fresh;
  }

  lemma ExtendedCollecting(s: State, p: BlockNo, b: BlockNo)
    requires Inv(s) && CanExtend(s, p, b)
    ensures Collecting(Extending(s.pages, p, b), s.o.Extend(p, b), s.collector, s.clock)
  {
    hide Shape, Marks, Points, Placed, LostApart, Known, Appending, Reading, Loading, Clock.Valid, Order.Extend;
    hide Order.NoneBetween, Order.NoneAfter, Order.Rank, Follows, Before;
    LastOfList(s, p);
    PointAtPages(s);
    ExtendRanks(s, p, b);
    ExtendedSets(s.o, p, b);
  }

  lemma ExtendedSets(o: Order, p: BlockNo, b: BlockNo)
    ensures var e := o.Extend(p, b);
            && e.rank == o.rank[b := o.top]
            && e.live == (if p in o.live then o.live + {b} else o.live)
            && e.gap == (if p !in o.live && p in o.gap then o.gap + {b} else o.gap)
            && (p !in o.gap ==> e.hanging == if p in o.live then o.hanging else o.hanging + {b})
  {}

  lemma PointAtPages(s: State)
    requires Inv(s)
    ensures forall x :: s.o.Linked(x) && x in s.pages && s.pages[x].Page? && s.pages[x].next != INVALID_BLOCK ==>
      s.pages[x].next in s.pages
  {
    hide Marks, Points, Collecting, Placed, LostApart, Known, Appending, Reading, Loading, Clock.Valid;
    hide Order.NoneBetween, Order.NoneAfter;
    forall x | s.o.Linked(x) && x in s.pages && s.pages[x].Page? && s.pages[x].next != INVALID_BLOCK
      ensures s.pages[x].next in s.pages
    {
      PointsOf(s.pages, s.o, s.freed, x);
    }
  }

  lemma ExtendRanks(s: State, p: BlockNo, b: BlockNo)
    requires Inv(s) && CanExtend(s, p, b)
    ensures var o := s.o.Extend(p, b);
            && s.o.live + s.o.gap <= s.o.rank.Keys && b !in s.o.rank && s.o.live !! s.o.gap
             && INVALID_BLOCK !in s.o.rank
            && (forall q :: q in s.o.rank ==> o.Rank(q) == s.o.Rank(q)) && o.Rank(b) == s.o.top
            && (forall q :: q in s.o.rank ==> s.o.Rank(q) < s.o.top)
            && (forall x, n :: x in s.o.rank && n in s.o.rank ==> (Follows(o, x, n) <==> Follows(s.o, x, n)))
            && (forall n :: n in s.o.rank && p !in s.o.gap ==> (Before(o, n) <==> Before(s.o, n)))
            && (forall x :: x in s.o.rank && p !in s.o.live ==> (o.NoneAfter(x) <==> s.o.NoneAfter(x)))
  {
    hide Marks, Points, Collecting, Placed, LostApart, Known, Appending, Reading, Loading, Clock.Valid;
  }

  lemma ExtendedPlaced(s: State, p: BlockNo, b: BlockNo)
    requires Inv(s) && CanExtend(s, p, b)
    ensures Placed(Extending(s.pages, p, b), s.o.Extend(p, b).live, s.entries, s.place, s.appenders)
    ensures LostApart(Extending(s.pages, p, b), s.o.Extend(p, b), s.lost)
  {
    hide Shape, Marks, Points, Collecting, LostApart, Known, Appending, Reading, Loading, Clock.Valid, InTransit;
    hide Order.Extend, PageHas;
    ExtendedLost(s, p, b);
    NothingOn(b, s.entries, s.place, s.appenders);
    ExtendedSets(s.o, p, b);
  }

  lemma NothingOn(b: BlockNo, entries: Entries, place: map<SegmentId, BlockNo>, appenders: map<nat, Appender>)
    ensures PageHas([], b, entries, place, appenders)
  {}

  lemma ExtendedLost(s: State, p: BlockNo, b: BlockNo)
    requires Inv(s) && CanExtend(s, p, b)
    ensures LostApart(Extending(s.pages, p, b), s.o.Extend(p, b), s.lost)
  {
    hide Marks, Points, Collecting, Placed, Known, Appending, Reading, Loading, Clock.Valid;
  }

  lemma SameKnown(s: State, k: nat, u: Appender)
    requires Inv(s) && k in s.appenders && u.held == s.appenders[k].held && u.e == s.appenders[k].e
    ensures Known(s.entries, s.appenders[k := u], s.ids, s.lost, s.removed)
  {
    hide Shape, Marks, Points, Collecting, Placed, LostApart, Appending, Reading, Loading, Clock.Valid, Coming;
    SameHeld(s.appenders, k, u);
  }

  lemma ExtendedAppending(s: State, k: nat, b: BlockNo)
    requires Inv(s) && k in s.appenders && CanExtend(s, s.appenders[k].at, b)
    ensures var u := s.appenders[k];
            Appending(Extending(s.pages, u.at, b), s.o.Extend(u.at, b), s.appenders[k := u.(at := b)], s.collector,
                      s.place, s.clock.active)
  {
    hide Marks, Points, Collecting, Placed, LostApart, Known, Reading, Loading, Clock.Valid;
  }

  lemma ExtendedReading(s: State, p: BlockNo, b: BlockNo)
    requires Inv(s) && CanExtend(s, p, b)
    ensures Reading(Extending(s.pages, p, b), s.o.Extend(p, b), s.readers, s.clock.live)
  {
    hide Marks, Points, Collecting, Placed, LostApart, Known, Appending, Loading, Clock.Valid;
  }

  lemma ExtendedLoading(s: State, p: BlockNo, b: BlockNo)
    requires Inv(s) && CanExtend(s, p, b)
    ensures Loading(s.o.Extend(p, b), s.readers, s.entries, s.place, s.clock.live)
  {
    hide Marks, Points, Collecting, Placed, LostApart, Known, Appending, Clock.Valid, Fresh;
    forall r, id | r in s.readers && id in s.readers[r].owed && s.readers[r].v in s.clock.live
      ensures id in s.place && LoadedSoFar(s.o.Extend(p, b), s.readers[r], id, s.place[id])
    {
      assert LoadedSoFar(s.o, s.readers[r], id, s.place[id]);
      assert s.o.Extend(p, b).Ahead(s.readers[r].next, s.place[id]) == s.o.Ahead(s.readers[r].next, s.place[id]) by {
        PlaceIsRanked(s, id);
      }
    }
  }

  lemma PlaceIsRanked(s: State, id: SegmentId)
    requires Inv(s) && id in s.entries
    ensures id in s.place && s.place[id] in s.o.live && s.place[id] in s.o.rank && s.place[id] in s.pages
    ensures s.pages[s.place[id]].Page?
  {
    hide Marks, Points, Collecting, LostApart, Known, Appending, Reading, Loading, Clock.Valid, PageHas;
  }

  // Reading.

  lemma StartReadKeeps(s: State, a: Action)
    requires a.StartRead? && Inv(s) && Enabled(s, a)
    ensures Inv(Apply(s, a))
  {
    hide Shape, Marks, Points, Collecting, Placed, LostApart, Known, Appending, Reading, Loading, Clock.Valid, Owes;
    var owed := set id | id in s.entries && Owes(s.entries[id], s.clock.live[a.v]);
    var u := Reader(a.v, FIRST, multiset{}, owed, multiset{});
    StartIsReading(s, a.r, u);
    StartIsLoading(s, a.r, u);
  }

  lemma StartIsReading(s: State, r: nat, u: Reader)
    requires Inv(s) && u.next == FIRST && u.v in s.clock.live
    ensures Reading(s.pages, s.o, s.readers[r := u], s.clock.live)
  {
    hide Shape, Marks, Points, Collecting, Placed, LostApart, Known, Appending, Loading, Clock.Valid, Fresh;
    FirstIsFirst(s);
  }

  lemma StartIsLoading(s: State, r: nat, u: Reader)
    requires Inv(s) && u.next == FIRST && u.v in s.clock.live && u.loaded == multiset{} && u.passed == multiset{}
    requires forall id :: id in u.owed ==> id in s.entries && Owes(s.entries[id], s.clock.live[u.v])
    ensures Loading(s.o, s.readers[r := u], s.entries, s.place, s.clock.live)
  {
    hide Shape, Marks, Points, Collecting, Placed, LostApart, Known, Appending, Reading, Clock.Valid, LoadedSoFar, Owes;
    forall id | id in u.owed ensures id in s.place && LoadedSoFar(s.o, u, id, s.place[id]) {
      OwedAtStart(s, u, id);
    }
  }

  lemma OwedAtStart(s: State, u: Reader, id: SegmentId)
    requires Inv(s) && u.next == FIRST && u.loaded == multiset{} && u.passed == multiset{} && id in s.entries
    ensures id in s.place && LoadedSoFar(s.o, u, id, s.place[id])
  {
    hide Shape, Marks, Points, Collecting, Placed, LostApart, Known, Appending, Reading, Loading, Clock.Valid;
    FirstIsFirst(s);
    PlaceIsRanked(s, id);
  }

  lemma FirstIsFirst(s: State)
    requires Inv(s)
    ensures FIRST in s.o.rank && s.o.rank[FIRST] == 0 && FIRST in s.pages && !s.o.Cut(FIRST)
  {
    hide Marks, Points, Collecting, Placed, LostApart, Known, Appending, Reading, Loading, Clock.Valid;
  }

  lemma ReadPageKeeps(s: State, a: Action)
    requires a.ReadPage? && Inv(s) && Enabled(s, a)
    ensures Inv(Apply(s, a))
  {
    hide Shape, Marks, Points, Collecting, Placed, LostApart, Known, Appending, Reading, Loading, Clock.Valid;
    ReadIsReading(s, a.r);
    ReadIsLoading(s, a.r);
  }

  lemma ReadIsReading(s: State, r: nat)
    requires Inv(s) && CanRead(s, r)
    ensures Reading(s.pages, s.o, s.readers[r := ReadOn(s.readers[r], s.pages[s.readers[r].next])], s.clock.live)
  {
    hide Shape, Marks, Points, Collecting, Placed, LostApart, Known, Appending, Loading, Clock.Valid, Fresh;
    var u := s.readers[r];
    if s.pages[u.next].next != INVALID_BLOCK {
      NextToRead(s, u.next, u.v);
    }
  }

  /** From a page that nobody reuses under the snapshot, the pointer leads to another such. */
  lemma NextToRead(s: State, b: BlockNo, v: nat)
    requires Inv(s) && b in s.o.rank && b in s.pages && s.pages[b].Page? && v in s.clock.live
    requires s.o.Cut(b) ==> Fresh(s.pages[b], s.clock.live[v].snap.xmin)
    requires s.pages[b].next != INVALID_BLOCK
    ensures var n := s.pages[b].next;
            n in s.o.rank && n in s.pages && (s.o.Cut(n) ==> Fresh(s.pages[n], s.clock.live[v].snap.xmin))
  {
    hide Points, Placed, LostApart, Known, Appending, Reading, Loading, Clock.Valid, Order.NoneAfter;
    hide Order.NoneBetween, Follows, Before;
    LiveIsAbove(s.clock, v);
    PointsOf(s.pages, s.o, s.freed, b);
    if s.collector.Some? {
      assert s.collector.value.x in s.clock.active;
      RunningIsYounger(s.clock, s.collector.value.x);
    }
  }

  lemma IdsOnce(items: Items, id: SegmentId)
    requires Distinct(items)
    ensures IdsOf(items)[id] == if exists e :: e in items && e.segmentId == id then 1 else 0
  {
    if items != [] {
      var front, last := items[..|items| - 1], items[|items| - 1];
      IdsOnce(front, id);
      assert items == front + [last];
      assert forall e :: e in items <==> e in front || e == last;
      if last.segmentId == id {
        assert forall e :: e in front ==> e.segmentId != id;
      }
    }
  }

  lemma ReadIsLoading(s: State, r: nat)
    requires Inv(s) && CanRead(s, r)
    ensures Loading(s.o, s.readers[r := ReadOn(s.readers[r], s.pages[s.readers[r].next])], s.entries, s.place,
                    s.clock.live)
  {
    hide Shape, Marks, Points, Collecting, Placed, LostApart, Known, Appending, Reading, Clock.Valid, LoadedSoFar, Held;
    var readers := s.readers[r := ReadOn(s.readers[r], s.pages[s.readers[r].next])];
    forall j, id | j in readers && id in readers[j].owed && readers[j].v in s.clock.live
      ensures id in s.place && LoadedSoFar(s.o, readers[j], id, s.place[id])
    {
      if j == r {
        ReadOnce(s, r, id);
      }
    }
  }

  lemma ReadOnce(s: State, r: nat, id: SegmentId)
    requires Inv(s) && CanRead(s, r) && id in s.entries && id in s.place
    requires LoadedSoFar(s.o, s.readers[r], id, s.place[id])
    ensures LoadedSoFar(s.o, ReadOn(s.readers[r], s.pages[s.readers[r].next]), id, s.place[id])
  {
    hide Shape, Marks, Points, Collecting, Placed, LostApart, Known, Appending, Reading, Loading, Clock.Valid, Held;
    hide IdsOf, Order.Ahead;
    var u := s.readers[r];
    PlaceIsRanked(s, id);
    AheadOfNext(s, r, s.place[id]);
    CountOnPage(s, u.next, id);
  }

  /** An entry is read with its own page, and with no other. */
  lemma CountOnPage(s: State, b: BlockNo, id: SegmentId)
    requires Inv(s) && b in s.o.rank && b in s.pages && s.pages[b].Page? && !Held(s.appenders, b)
    requires id in s.entries && id in s.place
    ensures IdsOf(s.pages[b].items)[id] == if s.place[id] == b then 1 else 0
  {
    hide Marks, Points, Collecting, LostApart, Known, Appending, Reading, Loading, Clock.Valid, IdsOf, Distinct;
    var items := s.pages[b].items;
    if b in s.o.live {
      assert PageHas(items, b, s.entries, s.place, s.appenders);
      IdsOnce(items, id);
      if s.place[id] == b {
        NotMoving(s, b, id);
        assert s.entries[id] in items;
      }
    } else {
      LostAreOthers(s, b, id);
      IdsOfOthers(items, id);
    }
  }

  lemma NotMoving(s: State, b: BlockNo, id: SegmentId)
    requires Inv(s) && id in s.place && s.place[id] == b && !Held(s.appenders, b)
    ensures !InTransit(s.appenders, id)
  {
    hide Shape, Marks, Points, Collecting, Placed, LostApart, Known, Reading, Loading, Clock.Valid, Fresh;
    if k :| k in s.appenders && s.appenders[k].held.Some? && s.appenders[k].e.segmentId == id {
      assert false;
    }
  }

  lemma LostAreOthers(s: State, b: BlockNo, id: SegmentId)
    requires Inv(s) && s.o.Cut(b) && b in s.pages && s.pages[b].Page? && id in s.entries
    ensures forall e :: e in s.pages[b].items ==> e.segmentId != id
  {
    hide Shape, Marks, Points, Collecting, Placed, Appending, Reading, Loading, Clock.Valid, Coming;
  }

  lemma {:induction false} IdsOfOthers(items: Items, id: SegmentId)
    requires forall e :: e in items ==> e.segmentId != id
    ensures IdsOf(items)[id] == 0
  {
    if items != [] {
      IdsOfOthers(items[..|items| - 1], id);
    }
  }

  /** What was ahead of the page just read, but for the page itself, is ahead of the next one. */
  lemma AheadOfNext(s: State, r: nat, q: BlockNo)
    requires Inv(s) && CanRead(s, r) && q in s.o.live
    ensures var b := s.readers[r].next;
            && b in s.o.rank
            && (q == b ==> s.o.Ahead(b, q) && !s.o.Ahead(s.pages[b].next, q))
            && (q != b ==> (s.o.Ahead(b, q) <==> s.o.Ahead(s.pages[b].next, q)))
  {
    hide Marks, Points, Collecting, Placed, LostApart, Known, Appending, Reading, Loading, Clock.Valid, Held;
    var b := s.readers[r].next;
    ReaderIsFresh(s, r);
    PointsOf(s.pages, s.o, s.freed, b);
  }

  lemma ReaderIsFresh(s: State, r: nat)
    requires Inv(s) && r in s.readers && s.readers[r].next != INVALID_BLOCK
    ensures s.readers[r].next in s.o.rank && s.readers[r].next in s.pages
    ensures s.o.Cut(s.readers[r].next) ==> Fresh(s.pages[s.readers[r].next], s.freed)
  {
    hide Shape, Marks, Points, Collecting, Placed, LostApart, Known, Appending, Loading, Clock.Valid;
    LiveIsAbove(s.clock, s.readers[r].v);
  }

  // The collection cleans a page.

  lemma CleanKeeps(s: State, a: Action)
    requires a.CleanPage? && Inv(s) && Enabled(s, a)
    ensures Inv(Apply(s, a))
  {
    hide Shape, Marks, Points, Collecting, Placed, LostApart, Known, Appending, Reading, Loading, Clock.Valid;
    hide GarbageCollection.Kept;
    var c := s.collector.value;
    var items := GarbageCollection.Kept(s.pages[c.at].items, c.env);
    VisitedIsLive(s);
    CleanIsPlaced(s, items);
    CleanIsKnown(s);
    CleanIsLoading(s);
    if items == [] && c.at != FIRST {
      EmptyKeeps(s);
      EmptyIsPlaced(s);
    } else {
      ItemsOfOne(s.pages, c.at, items);
      ItemsKeep(s, WithItems(s.pages, c.at, items));
      LiveIsNotLost(s.pages, s.o, s.lost, c.at, items);
      KeepIsCollecting(s, items);
      CollectorIsAppending(s, WithItems(s.pages, c.at, items), s.o, Apply(s, a).collector);
      CollectorIsMarked(WithItems(s.pages, c.at, items), s.o, s.collector, Apply(s, a).collector, s.freed,
                        s.clock.nextXid);
    }
  }

  /** The page to visit is on the list, and not the last one kept, but at the start. */
  lemma VisitedIsLive(s: State)
    requires Inv(s) && CanClean(s)
    ensures var c := s.collector.value;
            && c.at in s.o.live && c.at in s.o.rank && c.last in s.o.live && c.last in s.pages && s.pages[c.last].Page?
            && c.x in s.clock.active && c.env.Sound() && c.env.horizon <= s.clock.oldest
            && (c.at == FIRST ==> c.last == FIRST && s.o.gap == {}) && (c.at != FIRST ==> c.at != c.last)
            && (c.at != FIRST ==> Follows(s.o, c.last, c.at))
            && Before(s.o, c.at)
  {
    hide Marks, Points, Placed, LostApart, Known, Appending, Reading, Loading, Clock.Valid, Order.NoneAfter;
    hide Order.NoneBetween, Before;
  }

  lemma CollectorIsAppending(s: State, pages: Pages, o: Order, collector: Option<Collector>)
    requires Inv(s) && s.collector.Some?
    requires Appending(pages, o, s.appenders, s.collector, s.place, s.clock.active)
    ensures Appending(pages, o, s.appenders, collector, s.place, s.clock.active)
  {
    hide Shape, Marks, Points, Collecting, Placed, LostApart, Known, Reading, Loading, Clock.Valid;
    hide Inv, Fresh;
  }

  lemma CollectorIsMarked(pages: Pages, o: Order, collector: Option<Collector>, collector': Option<Collector>,
                          freed: Xid, nextXid: Xid)
    requires Marks(pages, o, collector, freed, nextXid)
    requires collector.Some? ==> collector'.Some? && collector'.value.x == collector.value.x
    ensures Marks(pages, o, collector', freed, nextXid)
  {}

  lemma NothingMoves(s: State, id: SegmentId)
    requires Inv(s) && s.collector.Some?
    ensures !InTransit(s.appenders, id)
  {
    hide Shape, Marks, Points, Collecting, Placed, LostApart, Known, Reading, Loading, Clock.Valid, Fresh;
  }

  lemma {:induction false} KeptHas(items: Items, env: Env)
    ensures forall x :: x in GarbageCollection.Kept(items, env) <==>
      exists e :: e in items && !e.Recyclable(env.snapshot, env.horizon) && x == e.Freeze(env.freezeLimit)
    ensures Distinct(items) ==> Distinct(GarbageCollection.Kept(items, env))
  {
    hide SegmentMetaEntry.Recyclable, SegmentMetaEntry.Freeze;
    if items != [] {
      var front, last := items[..|items| - 1], items[|items| - 1];
      KeptHas(front, env);
      assert forall e :: e in items <==> e in front || e == last;
      var kept := GarbageCollection.Kept(front, env);
      FreezeKeepsIds(front + [last], env.freezeLimit);
      if Distinct(items) && !last.Recyclable(env.snapshot, env.horizon) {
        forall x | x in kept ensures x.segmentId != last.segmentId {
          var e :| e in front && x == e.Freeze(env.freezeLimit);
          assert e in items;
        }
        FreezeKeepsIds([last], env.freezeLimit);
        WithOneMore(kept, last.Freeze(env.freezeLimit));
      }
    }
  }

  lemma FreezeKeepsIds(items: Items, limit: Xid)
    ensures forall e :: e in items ==> e.Freeze(limit).segmentId == e.segmentId
  {}

  lemma CleanIsPlaced(s: State, items: Items)
    requires Inv(s) && CanClean(s)
    requires items == GarbageCollection.Kept(s.pages[s.collector.value.at].items, s.collector.value.env)
    ensures var c := s.collector.value;
            Placed(WithItems(s.pages, c.at, items), s.o.live,
                   KeptEntries(s.entries, s.place, c.at, c.env), s.place, s.appenders)
  {
    hide Shape, Marks, Points, Collecting, Placed, LostApart, Known, Appending, Reading, Loading, Clock.Valid;
    hide InTransit, GarbageCollection.Kept, KeptEntries, PageHas;
    var c := s.collector.value;
    var entries' := KeptEntries(s.entries, s.place, c.at, c.env);
    VisitedIsLive(s);
    CleanHasEntries(s, items);
    forall p | p in s.o.live && p in s.pages && s.pages[p].Page?
      ensures PageHas(WithItems(s.pages, c.at, items)[p].items, p, entries', s.place, s.appenders)
    {
      PageHasOnly(s, p);
      if p == c.at {
        CleanPageHas(s, items);
      } else {
        OtherPageHas(s, p);
      }
    }
    PlacedAll(s, WithItems(s.pages, c.at, items), entries');
  }

  lemma PlacedAll(s: State, pages: Pages, entries: Entries)
    requires forall id :: id in entries ==>
      && entries[id].segmentId == id && id in s.place && s.place[id] in s.o.live
      && (InTransit(s.appenders, id) || (s.place[id] in pages && pages[s.place[id]].Page?
                                         && entries[id] in pages[s.place[id]].items))
    requires forall p :: p in s.o.live && p in pages && pages[p].Page? ==>
      PageHas(pages[p].items, p, entries, s.place, s.appenders)
    ensures Placed(pages, s.o.live, entries, s.place, s.appenders)
  {}

  lemma PageHasOnly(s: State, p: BlockNo)
    requires Inv(s) && p in s.o.live && p in s.pages && s.pages[p].Page?
    ensures PageHas(s.pages[p].items, p, s.entries, s.place, s.appenders)
  {
    hide Shape, Marks, Points, Collecting, LostApart, Known, Appending, Reading, Loading, Clock.Valid, PageHas;
    hide InTransit;
  }

  lemma OtherPageHas(s: State, p: BlockNo)
    requires CanClean(s) && p != s.collector.value.at && p in s.pages && s.pages[p].Page?
    requires PageHas(s.pages[p].items, p, s.entries, s.place, s.appenders)
    ensures var c := s.collector.value;
            PageHas(s.pages[p].items, p, KeptEntries(s.entries, s.place, c.at, c.env), s.place, s.appenders)
  {
    hide InTransit, Distinct, SegmentMetaEntry.Recyclable, SegmentMetaEntry.Freeze;
  }

  lemma CleanHasEntries(s: State, items: Items)
    requires Inv(s) && CanClean(s)
    requires items == GarbageCollection.Kept(s.pages[s.collector.value.at].items, s.collector.value.env)
    ensures var c := s.collector.value;
            var entries' := KeptEntries(s.entries, s.place, c.at, c.env);
            forall id :: id in entries' ==>
              && entries'[id].segmentId == id && id in s.place && s.place[id] in s.o.live
              && s.place[id] in s.pages && s.pages[s.place[id]].Page?
              && entries'[id] in if s.place[id] == c.at then items else s.pages[s.place[id]].items
  {
    hide Shape, Marks, Points, Collecting, LostApart, Known, Appending, Reading, Loading, Clock.Valid, PageHas;
    hide InTransit, GarbageCollection.Kept;
    hide SegmentMetaEntry.Recyclable, SegmentMetaEntry.Freeze;
    var c := s.collector.value;
    KeptHas(s.pages[c.at].items, c.env);
    FreezeKeepsIds(s.pages[c.at].items, c.env.freezeLimit);
    forall id ensures !InTransit(s.appenders, id) {
      NothingMoves(s, id);
    }
  }

  lemma CleanPageHas(s: State, items: Items)
    requires Inv(s) && CanClean(s)
    requires items == GarbageCollection.Kept(s.pages[s.collector.value.at].items, s.collector.value.env)
    requires PageHas(s.pages[s.collector.value.at].items, s.collector.value.at, s.entries, s.place, s.appenders)
    ensures var c := s.collector.value;
            PageHas(items, c.at, KeptEntries(s.entries, s.place, c.at, c.env), s.place, s.appenders)
  {
    hide Shape, Marks, Points, Collecting, Placed, LostApart, Known, Appending, Reading, Loading, Clock.Valid, Inv;
    hide InTransit, GarbageCollection.Kept, SegmentMetaEntry.Recyclable, SegmentMetaEntry.Freeze, Distinct;
    var c := s.collector.value;
    KeptHas(s.pages[c.at].items, c.env);
    FreezeKeepsIds(s.pages[c.at].items, c.env.freezeLimit);
    forall x | x in items
      ensures x.segmentId in s.entries && !Removes(s.entries, s.place, c.at, c.env, x.segmentId)
      ensures s.entries[x.segmentId].Freeze(c.env.freezeLimit) == x
      ensures s.place[x.segmentId] == c.at && !InTransit(s.appenders, x.segmentId)
    {
      var e :| e in s.pages[c.at].items && !e.Recyclable(c.env.snapshot, c.env.horizon)
               && x == e.Freeze(c.env.freezeLimit);
    }
  }

  lemma CleanIsKnown(s: State)
    requires Inv(s) && CanClean(s)
    ensures var c := s.collector.value;
            Known(KeptEntries(s.entries, s.place, c.at, c.env), s.appenders, s.ids, s.lost,
                  s.removed + set id | id in s.entries && Removes(s.entries, s.place, c.at, c.env, id))
  {
    hide Shape, Marks, Points, Collecting, Placed, LostApart, Appending, Reading, Loading, Clock.Valid, Coming;
    hide SegmentMetaEntry.Recyclable, SegmentMetaEntry.Freeze;
    forall k | k in s.appenders ensures s.appenders[k].held == None {
      assert s.appenders[k].held.Some? ==> InTransit(s.appenders, s.appenders[k].e.segmentId);
      NothingMoves(s, s.appenders[k].e.segmentId);
    }
  }

  /** What a reader owes is not removed, and stays owed. */
  lemma CleanIsLoading(s: State)
    requires Inv(s) && CanClean(s)
    ensures var c := s.collector.value;
            Loading(s.o, s.readers, KeptEntries(s.entries, s.place, c.at, c.env), s.place, s.clock.live)
  {
    hide Shape, Marks, Points, Collecting, Placed, LostApart, Known, Appending, Reading, Clock.Valid, LoadedSoFar;
    var c := s.collector.value;
    VisitedIsLive(s);
    forall r, id | r in s.readers && id in s.readers[r].owed && s.readers[r].v in s.clock.live
      ensures !Removes(s.entries, s.place, c.at, c.env, id)
      ensures Owes(s.entries[id].Freeze(c.env.freezeLimit), s.clock.live[s.readers[r].v])
    {
      LiveIsAbove(s.clock, s.readers[r].v);
    }
  }

  lemma KeepIsCollecting(s: State, items: Items)
    requires Inv(s) && CanClean(s)
    requires var c := s.collector.value; items != [] || c.at == FIRST
    ensures var c := s.collector.value;
            var pending := if c.at != FIRST then Some(c.at) else None;
            Collecting(WithItems(s.pages, c.at, items), s.o,
                       Some(c.(at := s.pages[c.at].next, pending := pending)), s.clock)
  {
    hide Marks, Points, Placed, LostApart, Known, Appending, Reading, Loading, Clock.Valid;
    VisitedIsLive(s);
    PointsOf(s.pages, s.o, s.freed, s.collector.value.at);
  }

  // It leaves nothing on it: the page is marked.

  ghost function Emptied(s: State): Pages
    requires CanClean(s)
  {
    var b := s.collector.value.at;
    s.pages[b := s.pages[b].(items := []).MarkDeleted(s.clock.nextXid)]
  }

  lemma EmptyKeeps(s: State)
    requires Inv(s) && CanClean(s) && s.collector.value.at != FIRST
    ensures var c := s.collector.value;
            var o := s.o.Empty(c.at);
            var n := s.pages[c.at].next;
            var after := Some(c.(at := n, pending := if n == INVALID_BLOCK then Some(INVALID_BLOCK) else None));
            && Shape(Emptied(s), o) && Marks(Emptied(s), o, after, s.freed, s.clock.nextXid)
            && Points(Emptied(s), o, s.freed) && Collecting(Emptied(s), o, after, s.clock)
            && LostApart(Emptied(s), o, s.lost)
            && Appending(Emptied(s), o, s.appenders, after, s.place, s.clock.active)
            && Reading(Emptied(s), o, s.readers, s.clock.live)
            && (Loading(s.o, s.readers, KeptEntries(s.entries, s.place, c.at, c.env), s.place, s.clock.live) ==>
                  Loading(o, s.readers, KeptEntries(s.entries, s.place, c.at, c.env), s.place, s.clock.live))
  {
    hide Shape, Marks, Points, Collecting, Placed, LostApart, Known, Appending, Reading, Loading, Clock.Valid;
    hide Emptied, Order.Empty;
    var c := s.collector.value;
    EmptyShape(s);
    EmptyMarks(s);
    EmptyPoints(s);
    EmptyCollecting(s);
    EmptyPeople(s);
    EmptyLoading(s, KeptEntries(s.entries, s.place, c.at, c.env));
  }

  lemma EmptyShape(s: State)
    requires Inv(s) && CanClean(s) && s.collector.value.at != FIRST
    ensures Shape(Emptied(s), s.o.Empty(s.collector.value.at))
    ensures LostApart(Emptied(s), s.o.Empty(s.collector.value.at), s.lost)
  {
    hide Marks, Points, Collecting, Placed, Known, Appending, Reading, Loading, Clock.Valid;
    VisitedIsLive(s);
  }

  lemma NextXidIsNew(s: State)
    requires Inv(s)
    ensures INVALID_XID < s.clock.nextXid && s.freed <= s.clock.nextXid
    ensures forall x :: x in s.clock.active ==> x < s.clock.nextXid
    ensures forall v :: v in s.clock.live ==> s.clock.live[v].snap.xmin <= s.clock.nextXid
  {
    hide Shape, Marks, Points, Collecting, Placed, LostApart, Known, Appending, Reading, Loading, RegardsAsRunning;
  }

  lemma EmptyMarks(s: State)
    requires Inv(s) && CanClean(s) && s.collector.value.at != FIRST
    ensures forall after: Option<Collector> :: after.Some? && after.value.x == s.collector.value.x ==>
      Marks(Emptied(s), s.o.Empty(s.collector.value.at), after, s.freed, s.clock.nextXid)
  {
    hide Points, Collecting, Placed, LostApart, Known, Appending, Reading, Loading, Clock.Valid;
    VisitedIsLive(s);
    NextXidIsNew(s);
  }

  lemma EmptyPoints(s: State)
    requires Inv(s) && CanClean(s) && s.collector.value.at != FIRST
    ensures Points(Emptied(s), s.o.Empty(s.collector.value.at), s.freed)
  {
    hide Marks, Points, Collecting, Placed, LostApart, Known, Appending, Reading, Loading, Clock.Valid, Emptied;
    hide Order.Empty, PointsOn;
    var b := s.collector.value.at;
    forall x | x in s.o.rank ensures PointsOn(Emptied(s), s.o.Empty(b), s.freed, x) {
      PointsOf(s.pages, s.o, s.freed, x);
      if x == b {
        EmptiedPoints(s);
      } else {
        EmptyPointsOn(s, x);
      }
    }
    assert s.o.Empty(b).rank == s.o.rank by { EmptyKeepsRanks(s.o, b); }
    PointsAll(Emptied(s), s.o.Empty(b), s.freed);
  }

  lemma EmptyKeepsRanks(o: Order, b: BlockNo)
    ensures o.Empty(b).rank == o.rank
  {}

  lemma EmptiedPoints(s: State)
    requires Inv(s) && CanClean(s) && s.collector.value.at != FIRST
    requires PointsOn(s.pages, s.o, s.freed, s.collector.value.at)
    ensures PointsOn(Emptied(s), s.o.Empty(s.collector.value.at), s.freed, s.collector.value.at)
  {
    hide Marks, Points, Collecting, Placed, LostApart, Known, Appending, Reading, Loading, Clock.Valid;
    VisitedIsLive(s);
    NextXidIsNew(s);
    if s.pages[s.collector.value.at].next != INVALID_BLOCK {
      NextIsLive(s, s.collector.value.at);
    }
  }

  /** Only the last page kept points at pages that were emptied. */
  lemma NextIsLive(s: State, b: BlockNo)
    requires Inv(s) && b in s.o.live && b in s.pages && s.pages[b].Page? && s.pages[b].next != INVALID_BLOCK
    ensures s.collector == None || b != s.collector.value.last ==> s.pages[b].next in s.o.live
    ensures s.pages[b].next !in s.o.gap ==> s.pages[b].next in s.o.live
  {
    hide Marks, Points, Placed, LostApart, Known, Appending, Reading, Loading, Clock.Valid, Order.NoneAfter;
    hide Order.NoneBetween, Follows, Before;
    PointsOf(s.pages, s.o, s.freed, b);
  }

  lemma EmptyPointsOn(s: State, x: BlockNo)
    requires Inv(s) && CanClean(s) && s.collector.value.at != FIRST && x in s.o.rank
    requires PointsOn(s.pages, s.o, s.freed, x) && x != s.collector.value.at
    ensures PointsOn(Emptied(s), s.o.Empty(s.collector.value.at), s.freed, x)
  {
    hide Points, Collecting, Placed, LostApart, Known, Appending, Reading, Loading, Clock.Valid;
    VisitedIsLive(s);
  }

  lemma EmptyCollecting(s: State)
    requires Inv(s) && CanClean(s) && s.collector.value.at != FIRST
    ensures var c := s.collector.value;
            var n := s.pages[c.at].next;
            var after := Some(c.(at := n, pending := if n == INVALID_BLOCK then Some(INVALID_BLOCK) else None));
            Collecting(Emptied(s), s.o.Empty(c.at), after, s.clock)
  {
    hide Shape, Marks, Points, Placed, LostApart, Known, Appending, Reading, Loading, Clock.Valid, Order.NoneBetween;
    hide Order.NoneAfter, Order.Rank, Follows, Before;
    var c := s.collector.value;
    VisitedIsLive(s);
    EmptyRanks(s);
    OnlyLastPointsAt(s);
    if s.pages[c.at].next != INVALID_BLOCK {
      NextIsLive(s, c.at);
    }
  }

  /** The page to visit is pointed at by the last one kept, if nothing was emptied in between, and by no other. */
  lemma OnlyLastPointsAt(s: State)
    requires Inv(s) && CanClean(s) && s.collector.value.at != FIRST
    ensures var c := s.collector.value;
            && (s.o.gap == {} ==> s.pages[c.last].next == c.at) && c.last in s.pages && s.pages[c.last].Page?
            && (s.o.gap != {} ==> s.pages[c.last].next in s.o.gap) && c.at !in s.o.hanging
            && forall x :: x in s.o.live && x in s.pages && s.pages[x].Page? && s.pages[x].next == c.at ==> x == c.last
  {
    hide Marks, Points, Placed, LostApart, Known, Appending, Reading, Loading, Clock.Valid, Before;
    var c := s.collector.value;
    VisitedIsLive(s);
    PointsOf(s.pages, s.o, s.freed, c.last);
    forall x | x in s.o.live && x in s.pages && s.pages[x].Page? && s.pages[x].next == c.at ensures x == c.last {
      PointsOf(s.pages, s.o, s.freed, x);
    }
  }

  lemma EmptyRanks(s: State)
    requires Inv(s) && CanClean(s) && s.collector.value.at != FIRST
    ensures var c := s.collector.value;
            var o := s.o.Empty(c.at);
            var n := s.pages[c.at].next;
            && (forall q :: o.Rank(q) == s.o.Rank(q)) && s.o.Rank(c.last) < s.o.Rank(c.at)
            && (n == INVALID_BLOCK ==> o.NoneAfter(c.last))
            && (n != INVALID_BLOCK ==> Follows(o, c.last, n) && Before(o, n))
  {
    hide Marks, Points, Collecting, Placed, LostApart, Known, Appending, Reading, Loading, Clock.Valid;
    VisitedIsLive(s);
    PointsOf(s.pages, s.o, s.freed, s.collector.value.at);
  }

  lemma EmptyPeople(s: State)
    requires Inv(s) && CanClean(s) && s.collector.value.at != FIRST
    ensures forall after: Option<Collector> ::
      Appending(Emptied(s), s.o.Empty(s.collector.value.at), s.appenders, after, s.place, s.clock.active)
    ensures Reading(Emptied(s), s.o.Empty(s.collector.value.at), s.readers, s.clock.live)
  {
    hide Shape, Marks, Points, Collecting, Placed, LostApart, Known, Loading, Clock.Valid;
    VisitedIsLive(s);
    NextXidIsNew(s);
  }

  lemma EmptyLoading(s: State, entries: Entries)
    requires Inv(s) && CanClean(s)
    ensures Loading(s.o, s.readers, entries, s.place, s.clock.live) ==>
      Loading(s.o.Empty(s.collector.value.at), s.readers, entries, s.place, s.clock.live)
  {
    hide Shape, Marks, Points, Collecting, Placed, LostApart, Known, Appending, Reading, Clock.Valid;
  }

  lemma EmptyIsPlaced(s: State)
    requires Inv(s) && CanClean(s)
    requires GarbageCollection.Kept(s.pages[s.collector.value.at].items, s.collector.value.env) == []
    requires var c := s.collector.value;
             Placed(WithItems(s.pages, c.at, []), s.o.live, KeptEntries(s.entries, s.place, c.at, c.env), s.place,
                    s.appenders)
    ensures var c := s.collector.value;
            Placed(Emptied(s), s.o.Empty(c.at).live, KeptEntries(s.entries, s.place, c.at, c.env), s.place, s.appenders)
  {
    hide Shape, Marks, Points, Collecting, LostApart, Known, Appending, Reading, Loading, Clock.Valid, PageHas;
    hide KeptEntries, InTransit, GarbageCollection.Kept;
    forall id ensures !InTransit(s.appenders, id) {
      NothingMoves(s, id);
    }
  }

  // It writes the pointer past the pages emptied.

  lemma RelinkKeeps(s: State, a: Action)
    requires a.Relink? && Inv(s) && Enabled(s, a)
    ensures Inv(Apply(s, a))
  {
    hide Shape, Marks, Points, Collecting, Placed, LostApart, Known, Appending, Reading, Loading, Clock.Valid;
    hide Order.Relink;
    RelinkShape(s);
    RelinkPoints(s);
    RelinkCollecting(s);
    RelinkPeople(s);
    RelinkLoading(s);
  }

  ghost function Relinked(s: State): Pages
    requires CanRelink(s)
  {
    var c := s.collector.value;
    s.pages[c.last := s.pages[c.last].(next := c.pending.value)]
  }

  ghost function RelinkedOrder(s: State): Order
    requires CanRelink(s)
  {
    s.o.Relink(s.collector.value.last, s.collector.value.pending.value)
  }

  ghost function RelinkedCollector(s: State): Option<Collector>
    requires CanRelink(s)
  {
    var c := s.collector.value;
    Some(c.(last := if c.pending.value == INVALID_BLOCK then c.last else c.pending.value, pending := None))
  }

  lemma RelinkShape(s: State)
    requires Inv(s) && CanRelink(s)
    ensures Shape(Relinked(s), RelinkedOrder(s)) && LostApart(Relinked(s), RelinkedOrder(s), s.lost)
    ensures Marks(Relinked(s), RelinkedOrder(s), RelinkedCollector(s), s.freed, s.clock.nextXid)
    ensures Placed(Relinked(s), RelinkedOrder(s).live, s.entries, s.place, s.appenders)
  {
    hide Shape, Marks, Points, Collecting, Placed, LostApart, Known, Appending, Reading, Loading, Clock.Valid;
    hide Relinked, RelinkedOrder, RelinkedCollector;
    RelinkOrder(s);
    RelinkLost(s);
    RelinkMarks(s);
    RelinkPlaced(s);
  }

  lemma RelinkOrder(s: State)
    requires Inv(s) && CanRelink(s)
    ensures Shape(Relinked(s), RelinkedOrder(s))
  {
    hide Marks, Points, Collecting, Placed, LostApart, Known, Appending, Reading, Loading, Clock.Valid;
  }

  lemma RelinkLost(s: State)
    requires Inv(s) && CanRelink(s)
    ensures LostApart(Relinked(s), RelinkedOrder(s), s.lost)
  {
    hide Shape, Marks, Points, Collecting, Placed, Known, Appending, Reading, Loading, Clock.Valid;
  }

  lemma RelinkMarks(s: State)
    requires Inv(s) && CanRelink(s)
    ensures Marks(Relinked(s), RelinkedOrder(s), RelinkedCollector(s), s.freed, s.clock.nextXid)
  {
    hide Shape, Points, Collecting, Placed, LostApart, Known, Appending, Reading, Loading, Clock.Valid;
  }

  lemma RelinkPlaced(s: State)
    requires Inv(s) && CanRelink(s)
    ensures Placed(Relinked(s), RelinkedOrder(s).live, s.entries, s.place, s.appenders)
  {
    hide Shape, Marks, Points, Collecting, LostApart, Known, Appending, Reading, Loading, Clock.Valid, PageHas;
    hide InTransit;
  }

  lemma RelinkPoints(s: State)
    requires Inv(s) && CanRelink(s)
    ensures Points(Relinked(s), RelinkedOrder(s), s.freed)
  {
    hide Shape, Marks, Points, Collecting, Placed, LostApart, Known, Appending, Reading, Loading, Clock.Valid;
    hide Relinked, RelinkedOrder, PointsOn;
    forall x | x in s.o.rank ensures PointsOn(Relinked(s), RelinkedOrder(s), s.freed, x) {
      PointsOf(s.pages, s.o, s.freed, x);
      if s.collector.value.pending == Some(INVALID_BLOCK) {
        EndPointsOn(s, x);
      } else {
        RelinkPointsOn(s, x);
      }
    }
    assert RelinkedOrder(s).rank == s.o.rank by { RelinkKeepsRanks(s); }
    PointsAll(Relinked(s), RelinkedOrder(s), s.freed);
  }

  lemma RelinkKeepsRanks(s: State)
    requires CanRelink(s)
    ensures RelinkedOrder(s).rank == s.o.rank
  {}

  lemma RelinkPointsOn(s: State, x: BlockNo)
    requires Inv(s) && CanRelink(s) && x in s.o.rank && PointsOn(s.pages, s.o, s.freed, x)
    requires s.collector.value.pending != Some(INVALID_BLOCK)
    ensures PointsOn(Relinked(s), RelinkedOrder(s), s.freed, x)
  {
    hide Shape, Marks, Points, Collecting, Placed, LostApart, Known, Appending, Reading, Loading, Clock.Valid;
    hide Order.NoneBetween, Order.NoneAfter, Order.Rank, Fresh;
    var c := s.collector.value;
    RelinkRanks(s);
    TargetFollows(s);
    if x in s.o.gap {
      GapLeadsOn(s, x);
    } else if x in s.o.live && x != c.last {
      if s.pages[x].next != INVALID_BLOCK {
        NextIsLive(s, x);
      }
    }
  }

  lemma RelinkRanks(s: State)
    requires Inv(s) && CanRelink(s)
    ensures s.o.live !! s.o.gap && s.o.live !! s.o.off && s.o.live !! s.o.ended && s.o.gap !! s.o.off
    ensures s.o.gap !! s.o.ended && s.o.off !! s.o.ended && s.o.rank.Keys == s.o.live + s.o.gap + s.o.off + s.o.ended
    ensures var o := RelinkedOrder(s);
            && (forall q :: o.Rank(q) == s.o.Rank(q))
            && (forall lo, hi :: o.NoneBetween(lo, hi) <==> s.o.NoneBetween(lo, hi))
            && (forall x :: o.NoneAfter(x) <==> s.o.NoneAfter(x))
  {
    hide Marks, Points, Collecting, Placed, LostApart, Known, Appending, Reading, Loading, Clock.Valid;
  }

  lemma TargetFollows(s: State)
    requires Inv(s) && CanRelink(s) && s.collector.value.pending != Some(INVALID_BLOCK)
    ensures var c := s.collector.value;
            && c.last in s.o.live && c.pending.value in s.o.live && c.last != INVALID_BLOCK
            && c.pending.value in s.pages && c.last != c.pending.value
            && s.o.Rank(c.last) < s.o.Rank(c.pending.value)
            && s.o.NoneBetween(s.o.Rank(c.last), s.o.Rank(c.pending.value))
  {
    hide Marks, Points, Placed, LostApart, Known, Appending, Reading, Loading, Clock.Valid, Order.NoneBetween;
    hide Order.NoneAfter, Before;
  }

  lemma GapLeadsOn(s: State, x: BlockNo)
    requires Inv(s) && CanRelink(s) && s.collector.value.pending != Some(INVALID_BLOCK)
    requires x in s.o.gap && PointsOn(s.pages, s.o, s.freed, x)
    ensures s.pages[x].next != INVALID_BLOCK
  {
    hide Marks, Points, Placed, LostApart, Known, Appending, Reading, Loading, Clock.Valid, Order.NoneBetween;
  }

  lemma EndPointsOn(s: State, x: BlockNo)
    requires Inv(s) && CanRelink(s) && x in s.o.rank && PointsOn(s.pages, s.o, s.freed, x)
    requires s.collector.value.pending == Some(INVALID_BLOCK)
    ensures PointsOn(Relinked(s), RelinkedOrder(s), s.freed, x)
  {
    hide Marks, Points, Placed, LostApart, Known, Appending, Reading, Loading, Clock.Valid, Fresh, Before;
  }

  lemma RelinkCollecting(s: State)
    requires Inv(s) && CanRelink(s)
    ensures Collecting(Relinked(s), RelinkedOrder(s), RelinkedCollector(s), s.clock)
  {
    hide Marks, Points, Placed, LostApart, Known, Appending, Reading, Loading, Clock.Valid;
  }

  lemma RelinkPeople(s: State)
    requires Inv(s) && CanRelink(s)
    ensures Appending(Relinked(s), RelinkedOrder(s), s.appenders, RelinkedCollector(s), s.place,
                      s.clock.active)
    ensures Reading(Relinked(s), RelinkedOrder(s), s.readers, s.clock.live)
  {
    hide Shape, Marks, Points, Collecting, Placed, LostApart, Known, Loading, Clock.Valid;
  }

  lemma RelinkLoading(s: State)
    requires Inv(s) && CanRelink(s)
    ensures Loading(RelinkedOrder(s), s.readers, s.entries, s.place, s.clock.live)
  {
    hide Shape, Marks, Points, Collecting, Placed, LostApart, Known, Appending, Reading, Clock.Valid, LoadedSoFar;
    hide Order.Ahead;
    forall r, id | r in s.readers && id in s.readers[r].owed && s.readers[r].v in s.clock.live
      ensures id in s.place && LoadedSoFar(RelinkedOrder(s), s.readers[r], id, s.place[id])
    {
      assert LoadedSoFar(s.o, s.readers[r], id, s.place[id]);
      PlaceIsRanked(s, id);
      RelinkAhead(s, r, s.place[id]);
      SameLoaded(s.o, RelinkedOrder(s), s.readers[r], id, s.place[id]);
    }
  }

  lemma SameLoaded(o: Order, o': Order, u: Reader, id: SegmentId, q: BlockNo)
    requires LoadedSoFar(o, u, id, q) && (o.Ahead(u.next, q) <==> o'.Ahead(u.next, q))
    ensures LoadedSoFar(o', u, id, q)
  {}

  lemma RelinkAhead(s: State, r: nat, q: BlockNo)
    requires Inv(s) && CanRelink(s) && r in s.readers && q in s.o.live
    ensures s.o.Ahead(s.readers[r].next, q) <==> RelinkedOrder(s).Ahead(s.readers[r].next, q)
  {
    hide Marks, Points, Placed, LostApart, Known, Appending, Reading, Loading, Clock.Valid, Follows, Before;
    hide Order.NoneBetween;
  }

  // A page taken off the list is reused.

  lemma ReuseKeeps(s: State, a: Action)
    requires a.Reuse? && Inv(s) && Enabled(s, a)
    ensures Inv(Apply(s, a))
  {
    hide Shape, Marks, Points, Collecting, Placed, LostApart, Known, Appending, Reading, Loading, Clock.Valid;
    hide Order.Reuse;
    ReaderIsSpared(s, a.b, a.horizon);
    ReuseShape(s, a.b, a.horizon);
    ReusePoints(s, a.b, a.horizon);
    ReusePeople(s, a.b, a.horizon);
    ReuseLoading(s, a.b, a.horizon);
    RemoveBelowKeepsClock(s.clock, a.horizon);
    PeopleAreActive(s);
    CollectingLater(s.pages - {a.b}, s.o.Reuse(a.b), s.collector, s.clock, s.clock.RemoveBelow(a.horizon));
  }

  /** Nobody who reads under a snapshot in use is on the page, or heads for it. */
  lemma ReaderIsSpared(s: State, b: BlockNo, horizon: Xid)
    requires Inv(s) && CanReuse(s, b, horizon)
    ensures forall r :: r in s.readers ==> s.readers[r].next != b
  {
    hide Marks, Points, Collecting, Placed, LostApart, Known, Appending, Loading, Clock.Valid;
    forall r | r in s.readers ensures s.readers[r].next != b {
      assert s.readers[r].v in s.clock.live;
      assert horizon <= s.clock.live[s.readers[r].v].snap.xmin;
    }
  }

  ghost function Later(s: State, horizon: Xid): Xid {
    if s.freed < horizon then horizon else s.freed
  }

  lemma ReuseShape(s: State, b: BlockNo, horizon: Xid)
    requires Inv(s) && CanReuse(s, b, horizon)
    ensures Shape(s.pages - {b}, s.o.Reuse(b)) && LostApart(s.pages - {b}, s.o.Reuse(b), s.lost)
    ensures Marks(s.pages - {b}, s.o.Reuse(b), s.collector, Later(s, horizon), s.clock.nextXid)
    ensures Placed(s.pages - {b}, s.o.Reuse(b).live, s.entries, s.place, s.appenders)
    ensures Collecting(s.pages - {b}, s.o.Reuse(b), s.collector, s.clock)
  {
    hide Shape, Marks, Points, Collecting, Placed, LostApart, Known, Appending, Reading, Loading, Clock.Valid;
    hide PageHas, InTransit, Order.Reuse;
    ReuseOrder(s, b, horizon);
    ReusePlaced(s, b, horizon);
    ReuseCollecting(s, b, horizon);
  }

  lemma ReuseOrder(s: State, b: BlockNo, horizon: Xid)
    requires Inv(s) && CanReuse(s, b, horizon)
    ensures Shape(s.pages - {b}, s.o.Reuse(b)) && LostApart(s.pages - {b}, s.o.Reuse(b), s.lost)
    ensures Marks(s.pages - {b}, s.o.Reuse(b), s.collector, Later(s, horizon), s.clock.nextXid)
  {
    hide Points, Collecting, Placed, Known, Appending, Reading, Loading, Clock.Valid;
  }

  lemma ReusePlaced(s: State, b: BlockNo, horizon: Xid)
    requires Inv(s) && CanReuse(s, b, horizon)
    ensures Placed(s.pages - {b}, s.o.Reuse(b).live, s.entries, s.place, s.appenders)
  {
    hide Marks, Points, Collecting, LostApart, Known, Appending, Reading, Loading, Clock.Valid, PageHas, InTransit;
  }

  lemma ReuseCollecting(s: State, b: BlockNo, horizon: Xid)
    requires Inv(s) && CanReuse(s, b, horizon)
    ensures Collecting(s.pages - {b}, s.o.Reuse(b), s.collector, s.clock)
  {
    hide Marks, Points, Placed, LostApart, Known, Appending, Reading, Loading, Clock.Valid, Order.NoneBetween;
    hide Order.NoneAfter, Order.Reuse, Order.Rank, Follows, Before;
    var o := s.o.Reuse(b);
    ReusedSets(s.o, b);
    ReuseRanks(s, b, horizon);
  }

  lemma ReusedSets(o: Order, b: BlockNo)
    ensures var r := o.Reuse(b);
            && r.rank == o.rank - {b} && r.live == o.live && r.gap == o.gap && r.hanging == o.hanging
            && forall n :: n != b ==> (r.Cut(n) <==> o.Cut(n))
  {}

  lemma ReuseRanks(s: State, b: BlockNo, horizon: Xid)
    requires Inv(s) && CanReuse(s, b, horizon)
    ensures b !in s.o.live && b !in s.o.gap
    ensures var o := s.o.Reuse(b);
            && (forall q :: q != b ==> o.Rank(q) == s.o.Rank(q))
            && (forall p, n :: p != b && n != b ==> (Follows(o, p, n) <==> Follows(s.o, p, n)))
            && (forall n :: n != b ==> (Before(o, n) <==> Before(s.o, n)))
            && (forall p :: p != b ==> (o.NoneAfter(p) <==> s.o.NoneAfter(p)))
  {
    hide Marks, Points, Collecting, Placed, LostApart, Known, Appending, Reading, Loading, Clock.Valid;
  }

  lemma ReusePoints(s: State, b: BlockNo, horizon: Xid)
    requires Inv(s) && CanReuse(s, b, horizon)
    ensures Points(s.pages - {b}, s.o.Reuse(b), Later(s, horizon))
  {
    hide Marks, Points, Collecting, Placed, LostApart, Known, Appending, Reading, Loading, Clock.Valid, PointsOn;
    hide Order.Reuse;
    ReusedSets(s.o, b);
    forall x | x in s.o.Reuse(b).rank ensures PointsOn(s.pages - {b}, s.o.Reuse(b), Later(s, horizon), x) {
      PointsOf(s.pages, s.o, s.freed, x);
      ReusePointsOn(s, b, horizon, x);
    }
    PointsAll(s.pages - {b}, s.o.Reuse(b), Later(s, horizon));
  }

  lemma ReusePointsOn(s: State, b: BlockNo, horizon: Xid, x: BlockNo)
    requires Inv(s) && CanReuse(s, b, horizon) && x in s.o.rank && x != b
    requires PointsOn(s.pages, s.o, s.freed, x)
    ensures PointsOn(s.pages - {b}, s.o.Reuse(b), Later(s, horizon), x)
  {
    hide Marks, Points, Collecting, Placed, LostApart, Known, Appending, Reading, Loading, Clock.Valid;
  }

  lemma ReusePeople(s: State, b: BlockNo, horizon: Xid)
    requires Inv(s) && CanReuse(s, b, horizon) && forall r :: r in s.readers ==> s.readers[r].next != b
    ensures Appending(s.pages - {b}, s.o.Reuse(b), s.appenders, s.collector, s.place, s.clock.active)
    ensures Reading(s.pages - {b}, s.o.Reuse(b), s.readers, s.clock.live)
  {
    hide Shape, Marks, Points, Collecting, Placed, LostApart, Known, Appending, Loading, Clock.Valid, Order.Reuse;
    hide IsMove;
    ReusedSets(s.o, b);
    ReuseAppending(s, b, horizon);
  }

  lemma ReuseAppending(s: State, b: BlockNo, horizon: Xid)
    requires Inv(s) && CanReuse(s, b, horizon)
    ensures Appending(s.pages - {b}, s.o.Reuse(b), s.appenders, s.collector, s.place, s.clock.active)
  {
    hide Points, Collecting, Placed, LostApart, Known, Reading, Loading, Clock.Valid;
  }

  lemma ReuseLoading(s: State, b: BlockNo, horizon: Xid)
    requires Inv(s) && CanReuse(s, b, horizon) && forall r :: r in s.readers ==> s.readers[r].next != b
    ensures Loading(s.o.Reuse(b), s.readers, s.entries, s.place, s.clock.live)
  {
    hide Marks, Points, Collecting, Placed, LostApart, Known, Appending, Clock.Valid, LoadedSoFar;
    forall r, id | r in s.readers && id in s.readers[r].owed && s.readers[r].v in s.clock.live
      ensures id in s.place && LoadedSoFar(s.o.Reuse(b), s.readers[r], id, s.place[id])
    {
      assert LoadedSoFar(s.o, s.readers[r], id, s.place[id]);
      PlaceIsRanked(s, id);
      SameLoaded(s.o, s.o.Reuse(b), s.readers[r], id, s.place[id]);
    }
  }
}
