/**
 Garbage collection of a list of segment entries: dead entries go, old transaction ids are frozen,
 and pages left empty are unlinked, one page write at a time, while others walk the list.
 */
module GarbageCollection {
  import opened Wrappers
  import opened Transactions
  import opened Block
  import opened Storage
  import opened LinkedItems

  /** What the collecting backend goes by. */
  datatype Env = Env(snapshot: Snapshot, horizon: Xid, freezeLimit: Xid) {
    /** Nothing still in use is older than the horizon, nor frozen before it. */
    ghost predicate Sound() {
      FIRST_NORMAL_XID <= freezeLimit <= horizon <= snapshot.xmin
    }
  }

  /** `vacuum_get_freeze_limit`: never past the oldest transaction that matters to someone. */
  function FreezeLimit(nextXid: Xid, freezeMinAge: nat, oldestXmin: Xid): (limit: Xid)
    requires IsNormal(oldestXmin)
    ensures FIRST_NORMAL_XID <= limit <= oldestXmin
    // the largest such id that is old enough
    ensures limit == FIRST_NORMAL_XID || limit + freezeMinAge <= nextXid
    ensures forall x: Xid :: IsNormal(x) && x <= oldestXmin && x + freezeMinAge <= nextXid ==> x <= limit
  {
    if freezeMinAge > nextXid then FIRST_NORMAL_XID
    else
      var limit := if IsNormal(nextXid - freezeMinAge) then nextXid - freezeMinAge else FIRST_NORMAL_XID;
      if oldestXmin < limit then oldestXmin else limit
  }

  // ---------------------------------------------------------------------------------------------
  // What survives
  // ---------------------------------------------------------------------------------------------

  /** The entries that are not recyclable, in order, frozen. */
  ghost function Kept(items: Items, env: Env): Items {
    if items == [] then []
    else Kept(items[..|items| - 1], env) + KeptOne(items[|items| - 1], env)
  }

  ghost function KeptOne(e: SegmentMetaEntry, env: Env): Items {
    if e.Recyclable(env.snapshot, env.horizon) then [] else [e.Freeze(env.freezeLimit)]
  }

  lemma {:induction false} KeptAppend(a: Items, b: Items, env: Env)
    ensures Kept(a + b, env) == Kept(a, env) + Kept(b, env)
  {
    if b == [] {
      assert a + b == a;
    } else {
      assert (a + b)[..|a + b| - 1] == a + b[..|b| - 1];
      KeptAppend(a, b[..|b| - 1], env);
    }
  }

  /** Whom nobody can come to see is left out; the others stay, in order. */
  ghost function Survivors(items: Items, horizon: Xid): Items {
    if items == [] then []
    else
      var e := items[|items| - 1];
      Survivors(items[..|items| - 1], horizon) + if SeenBySome(e, horizon) || StillOwn(e, horizon) then [e] else []
  }

  ghost predicate AllFrozen(items: Items, frozen: Items, limit: Xid) {
    |frozen| == |items| && forall i :: 0 <= i < |items| ==> FrozenBelow(items[i], frozen[i], limit)
  }

  /** What is kept is exactly what some view that may be in use can see, and what one transaction both made and
      deleted that the horizon has not passed, with every id below the limit frozen. */
  lemma {:induction false} KeptAreSurvivors(items: Items, env: Env)
    requires env.Sound()
    ensures AllFrozen(Survivors(items, env.horizon), Kept(items, env), env.freezeLimit)
  {
    hide SegmentMetaEntry.Recyclable, SegmentMetaEntry.Freeze, SeenBySome, FrozenBelow, StillOwn;
    if items != [] {
      var e := items[|items| - 1];
      KeptAreSurvivors(items[..|items| - 1], env);
      RecyclableIff(e, env.snapshot, env.horizon);
      FreezeMeans(e, env.freezeLimit);
    }
  }

  /** Collecting twice is collecting once. */
  lemma {:induction false} KeptTwice(items: Items, env: Env)
    requires env.Sound()
    ensures Kept(Kept(items, env), env) == Kept(items, env)
  {
    if items != [] {
      var e := items[|items| - 1];
      KeptTwice(items[..|items| - 1], env);
      KeptAppend(Kept(items[..|items| - 1], env), KeptOne(e, env), env);
      var f := e.Freeze(env.freezeLimit);
      assert Kept([f], env) == Kept([f][..0], env) + KeptOne(f, env);
      FreezeKeepsRecyclability(e, env.freezeLimit, env.snapshot, env.horizon);
    }
  }

  /** The segments a view sees, in order. */
  ghost function VisibleIds(items: Items, view: View): seq<SegmentId> {
    if items == [] then []
    else
      var e := items[|items| - 1];
      VisibleIds(items[..|items| - 1], view) + if e.Visible(view) then [e.segmentId] else []
  }

  /** A view that may still be in use sees the same segments before and after. */
  lemma {:induction false} KeptKeepsVisible(items: Items, env: Env, view: View)
    requires env.Sound() && view.AtOrAbove(env.horizon)
    ensures VisibleIds(Kept(items, env), view) == VisibleIds(items, view)
  {
    if items != [] {
      var front, e := items[..|items| - 1], items[|items| - 1];
      KeptKeepsVisible(front, env, view);
      if e.Recyclable(env.snapshot, env.horizon) {
        RecyclableIsInvisible(e, env.snapshot, env.horizon, view);
        assert Kept(items, env) == Kept(front, env);
      } else {
        FreezeKeepsVisibility(e, env.freezeLimit, view);
        var kept := Kept(items, env);
        assert kept[..|kept| - 1] == Kept(front, env);
        assert kept[|kept| - 1] == e.Freeze(env.freezeLimit);
      }
    }
  }

  /** The loops over a page: the offsets to delete are gathered, what stays is frozen in place. */
  method CleanPage(items: Items, env: Env) returns (r: Items)
    ensures r == Kept(items, env)
    ensures env.Sound() ==> AllFrozen(Survivors(items, env.horizon), r, env.freezeLimit)
  {
    hide Kept, MultiDelete, SegmentMetaEntry.ByteLen, Survivors, AllFrozen;
    if env.Sound() {
      KeptAreSurvivors(items, env);
    }
    var page := items;
    var deleteOffsets: set<nat> := {};
    CleanStart(items, env);
    for offset := 0 to |items|
      invariant |page| == |items| && page[offset..] == items[offset..]
      invariant forall d :: d in deleteOffsets ==> d < offset
      invariant MultiDelete(page[..offset], deleteOffsets) == Kept(items[..offset], env)
    {
      ghost var before, offsets := page, deleteOffsets;
      var e := page[offset];
      assert e == items[offset..][0] && page[offset + 1..] == page[offset..][1..] == items[offset..][1..];
      if e.Recyclable(env.snapshot, env.horizon) {
        deleteOffsets := deleteOffsets + {offset};
      } else if e.XminNeedsFreeze(env.freezeLimit) || e.XmaxNeedsFreeze(env.freezeLimit) {
        var frozen := e.IntoFrozen(e.XminNeedsFreeze(env.freezeLimit), e.XmaxNeedsFreeze(env.freezeLimit));
        page := page[offset := frozen];
      }
      CleanStep(items, before, page, offsets, deleteOffsets, offset, env);
    }
    assert page[..|items|] == page && items[..|items|] == items;
    r := MultiDelete(page, deleteOffsets);
  }

  lemma CleanStart(items: Items, env: Env)
    ensures MultiDelete(items[..0], {}) == Kept(items[..0], env)
  {}

  lemma CleanStep(items: Items, before: Items, page: Items, offsets: set<nat>, offsets': set<nat>,
                  offset: nat, env: Env)
    requires offset < |items| == |before| == |page|
    requires MultiDelete(before[..offset], offsets) == Kept(items[..offset], env)
    requires before[offset] == items[offset] && offset !in offsets
    requires if items[offset].Recyclable(env.snapshot, env.horizon)
             then page == before && offsets' == offsets + {offset}
             else page == before[offset := items[offset].Freeze(env.freezeLimit)] && offsets' == offsets
    ensures MultiDelete(page[..offset + 1], offsets') == Kept(items[..offset + 1], env)
  {
    MultiDeleteBeyond(before[..offset], offsets, offset);
    assert page[..offset + 1][..offset] == before[..offset];
    assert items[..offset + 1][..offset] == items[..offset];
  }

  /** Freezing an entry leaves its length, so the frozen version always fits in place. */
  lemma FrozenFits(items: Items, offset: nat, freezeLimit: Xid)
    requires offset < |items|
    ensures ReplaceItem(items, offset, items[offset].Freeze(freezeLimit)).Some?
  {}

  /** `delete_items`: what is at the given offsets goes, the rest closes up. */
  function MultiDelete(items: Items, offsets: set<nat>): Items {
    if items == [] then []
    else
      var n := |items| - 1;
      MultiDelete(items[..n], offsets) + if n in offsets then [] else [items[n]]
  }

  lemma {:induction false} MultiDeleteBeyond(items: Items, offsets: set<nat>, beyond: nat)
    requires |items| <= beyond
    ensures MultiDelete(items, offsets + {beyond}) == MultiDelete(items, offsets)
  {
    if items != [] {
      MultiDeleteBeyond(items[..|items| - 1], offsets, beyond);
    }
  }

  // ---------------------------------------------------------------------------------------------
  // What a reader may meet on the way
  // ---------------------------------------------------------------------------------------------

  /** The pages from `lo` up to `hi` are left with nothing. */
  ghost predicate Emptied(orig: Pages, chain: seq<BlockNo>, env: Env, lo: nat, hi: nat)
    requires hi <= |chain|
  {
    forall m :: lo <= m < hi ==> Kept(ItemsAt(orig, chain[m]), env) == []
  }

  /** A pointer from page `i` that leaves out only pages left with nothing. */
  ghost predicate SkipsOnlyEmptied(orig: Pages, chain: seq<BlockNo>, env: Env, i: nat, next: BlockNo)
    requires i < |chain|
  {
    || (next == INVALID_BLOCK && Emptied(orig, chain, env, i + 1, |chain|))
    || (exists j :: i < j < |chain| && next == chain[j] && Emptied(orig, chain, env, i + 1, j))
  }

  /**
   From every page of the old chain, emptied and unlinked ones included, the way leads on to every
   entry that survives; and each page still has all its survivors.
   */
  ghost predicate Safe(orig: Pages, chain: seq<BlockNo>, env: Env, p: Pages) {
    forall i :: 0 <= i < |chain| ==>
      && chain[i] in p && p[chain[i]].Page?
      && (p[chain[i]].items == ItemsAt(orig, chain[i])
          || p[chain[i]].items == Kept(ItemsAt(orig, chain[i]), env))
      && SkipsOnlyEmptied(orig, chain, env, i, p[chain[i]].next)
  }

  lemma SafeAtFirst(orig: Pages, chain: seq<BlockNo>, env: Env)
    requires Linked(orig, chain)
    ensures Safe(orig, chain, env, orig)
  {
    forall i | 0 <= i < |chain| ensures SkipsOnlyEmptied(orig, chain, env, i, orig[chain[i]].next) {
      if i + 1 < |chain| {
        assert orig[chain[i]].next == chain[i + 1];
      }
    }
  }

  /** Cleaning a page, with or without marking it deleted. */
  lemma SafeClean(orig: Pages, chain: seq<BlockNo>, env: Env, p: Pages, k: nat, page: Page)
    requires Linked(orig, chain) && Safe(orig, chain, env, p) && k < |chain|
    requires page.Page? && page.items == Kept(ItemsAt(orig, chain[k]), env)
    requires page.next == p[chain[k]].next
    ensures Safe(orig, chain, env, p[chain[k] := page])
  {}

  /** Pointing the last page kept past the pages left with nothing. */
  lemma SafeRelink(orig: Pages, chain: seq<BlockNo>, env: Env, p: Pages, l: nat, next: BlockNo)
    requires Linked(orig, chain) && Safe(orig, chain, env, p) && l < |chain|
    requires SkipsOnlyEmptied(orig, chain, env, l, next)
    ensures Safe(orig, chain, env, p[chain[l] := p[chain[l]].(next := next)])
  {}

  /** One page read: which of the page states over time it saw, and which page of the old chain. */
  datatype Visit = Visit(time: nat, page: nat)

  /** A reader that starts on the start page and follows pointers, while the pages change. */
  ghost predicate Walk(trace: seq<Pages>, chain: seq<BlockNo>, visits: seq<Visit>) {
    && visits != [] && visits[0].page == 0
    && (forall n :: 0 <= n < |visits| ==>
          && visits[n].time < |trace| && visits[n].page < |chain|
          && chain[visits[n].page] in trace[visits[n].time]
          && trace[visits[n].time][chain[visits[n].page]].Page?)
    && (forall n :: 0 < n < |visits| ==>
          && visits[n - 1].time <= visits[n].time
          && trace[visits[n - 1].time][chain[visits[n - 1].page]].next == chain[visits[n].page])
  }

  ghost predicate WalkEnds(trace: seq<Pages>, chain: seq<BlockNo>, visits: seq<Visit>)
    requires Walk(trace, chain, visits)
  {
    var last := visits[|visits| - 1];
    trace[last.time][chain[last.page]].next == INVALID_BLOCK
  }

  ghost function Gathered(trace: seq<Pages>, chain: seq<BlockNo>, visits: seq<Visit>): Items
    requires Walk(trace, chain, visits)
    decreases |visits|
  {
    var n := |visits| - 1;
    var items := trace[visits[n].time][chain[visits[n].page]].items;
    if n == 0 then items else Gathered(trace, chain, visits[..n]) + items
  }

  /** The entries on the first `n` pages. */
  ghost function ItemsUpTo(orig: Pages, chain: seq<BlockNo>, n: nat): Items
    requires n <= |chain|
  {
    if n == 0 then [] else ItemsUpTo(orig, chain, n - 1) + ItemsAt(orig, chain[n - 1])
  }

  lemma {:induction false} SkippingLosesNothing(orig: Pages, chain: seq<BlockNo>, env: Env, i: nat, j: nat)
    requires i <= j <= |chain| && Emptied(orig, chain, env, i, j)
    ensures Kept(ItemsUpTo(orig, chain, j), env) == Kept(ItemsUpTo(orig, chain, i), env)
  {
    hide Kept, ItemsAt;
    if i < j {
      SkippingLosesNothing(orig, chain, env, i, j - 1);
      KeptAppend(ItemsUpTo(orig, chain, j - 1), ItemsAt(orig, chain[j - 1]), env);
    }
  }

  lemma {:induction false} WalkSoFar(orig: Pages, chain: seq<BlockNo>, env: Env, trace: seq<Pages>,
                                     visits: seq<Visit>)
    requires env.Sound() && Linked(orig, chain) && Walk(trace, chain, visits)
    requires forall t :: 0 <= t < |trace| ==> Safe(orig, chain, env, trace[t])
    ensures Kept(Gathered(trace, chain, visits), env)
         == Kept(ItemsUpTo(orig, chain, visits[|visits| - 1].page + 1), env)
    decreases |visits|
  {
    hide Kept, ItemsAt, Safe, SkipsOnlyEmptied, Emptied, Linked;
    var n := |visits| - 1;
    var now := visits[n];
    var was, items := ItemsAt(orig, chain[now.page]), trace[now.time][chain[now.page]].items;
    SafeAt(orig, chain, env, trace[now.time], now.page);
    KeptTwice(was, env);
    KeptAppend(ItemsUpTo(orig, chain, now.page), was, env);
    if n > 0 {
      var before := visits[n - 1];
      assert Walk(trace, chain, visits[..n]);
      WalkSoFar(orig, chain, env, trace, visits[..n]);
      KeptAppend(Gathered(trace, chain, visits[..n]), items, env);
      SafeAt(orig, chain, env, trace[before.time], before.page);
      LandsBeyond(orig, chain, env, before.page, now.page);
      SkippingLosesNothing(orig, chain, env, before.page + 1, now.page);
    } else {
      KeptNothing(env, items);
    }
  }

  lemma KeptNothing(env: Env, items: Items)
    ensures Kept([], env) + Kept(items, env) == Kept(items, env)
  {}

  lemma SafeAt(orig: Pages, chain: seq<BlockNo>, env: Env, p: Pages, i: nat)
    requires Safe(orig, chain, env, p) && i < |chain|
    ensures chain[i] in p && p[chain[i]].Page?
    ensures p[chain[i]].items == ItemsAt(orig, chain[i])
            || p[chain[i]].items == Kept(ItemsAt(orig, chain[i]), env)
    ensures SkipsOnlyEmptied(orig, chain, env, i, p[chain[i]].next)
  {}

  lemma LandsBeyond(orig: Pages, chain: seq<BlockNo>, env: Env, i: nat, j: nat)
    requires Linked(orig, chain) && i < |chain| && j < |chain|
    requires SkipsOnlyEmptied(orig, chain, env, i, chain[j])
    ensures i < j && Emptied(orig, chain, env, i + 1, j)
  {}

  lemma EndsBeyond(orig: Pages, chain: seq<BlockNo>, env: Env, i: nat)
    requires Linked(orig, chain) && i < |chain|
    requires SkipsOnlyEmptied(orig, chain, env, i, INVALID_BLOCK)
    ensures Emptied(orig, chain, env, i + 1, |chain|)
  {}

  /**
   However the visits of a walk interleave with the page writes of the collection, a view that may
   still be in use finds exactly the segments it saw before, in order.
   */
  lemma WalkSeesEverything(orig: Pages, chain: seq<BlockNo>, env: Env, trace: seq<Pages>,
                           visits: seq<Visit>, view: View)
    requires env.Sound() && view.AtOrAbove(env.horizon) && Linked(orig, chain)
    requires forall t :: 0 <= t < |trace| ==> Safe(orig, chain, env, trace[t])
    requires Walk(trace, chain, visits) && WalkEnds(trace, chain, visits)
    ensures VisibleIds(Gathered(trace, chain, visits), view)
         == VisibleIds(ItemsUpTo(orig, chain, |chain|), view)
  {
    hide Kept, ItemsAt, Safe, Emptied, ItemsUpTo, Gathered, VisibleIds;
    var last := visits[|visits| - 1];
    WalkSoFar(orig, chain, env, trace, visits);
    SafeAt(orig, chain, env, trace[last.time], last.page);
    EndsBeyond(orig, chain, env, last.page);
    SkippingLosesNothing(orig, chain, env, last.page + 1, |chain|);
    KeptKeepsVisible(Gathered(trace, chain, visits), env, view);
    KeptKeepsVisible(ItemsUpTo(orig, chain, |chain|), env, view);
  }

  // ---------------------------------------------------------------------------------------------
  // The loop
  // ---------------------------------------------------------------------------------------------

  /** The start page stays; any other page stays while something is left on it. */
  ghost predicate Stays(orig: Pages, chain: seq<BlockNo>, env: Env, i: nat)
    requires i < |chain|
  {
    i == 0 || Kept(ItemsAt(orig, chain[i]), env) != []
  }

  /** The pages before `k` are done; `stay` lists those of them that stay, the last filled one last. */
  ghost predicate Collecting(orig: Pages, p: Pages, chain: seq<BlockNo>, env: Env, xid: Xid, k: nat,
                             stay: seq<nat>)
  {
    && k <= |chain|
    && Stayed(orig, chain, env, k, stay)
    && Bodies(orig, p, chain, env, xid, k)
    && Pointers(p, chain, k, stay)
  }

  ghost predicate Stayed(orig: Pages, chain: seq<BlockNo>, env: Env, k: nat, stay: seq<nat>)
    requires k <= |chain|
  {
    && (stay == [] <==> k == 0)
    && (k > 0 ==> stay[0] == 0 && Emptied(orig, chain, env, stay[|stay| - 1] + 1, k))
    && (forall t :: 0 <= t < |stay| ==> stay[t] < k && Stays(orig, chain, env, stay[t]))
    && Ascending(stay)
    && (forall t :: 0 < t < |stay| ==> GapBefore(orig, chain, env, stay, t))
  }

  ghost predicate Ascending(stay: seq<nat>) {
    forall s, t :: 0 <= s < t < |stay| ==> stay[s] < stay[t]
  }

  /** Nothing is left on the pages between one that stays and the one that stays before it. */
  ghost predicate GapBefore(orig: Pages, chain: seq<BlockNo>, env: Env, stay: seq<nat>, t: nat)
    requires 0 < t < |stay| && stay[t] <= |chain|
  {
    Emptied(orig, chain, env, stay[t - 1] + 1, stay[t])
  }

  ghost function BodyAt(p: Pages, b: BlockNo): Page {
    if b in p && p[b].Page? then p[b].(next := 0) else NewPage
  }

  ghost function NextAt(p: Pages, b: BlockNo): BlockNo {
    if b in p && p[b].Page? then p[b].next else 0
  }

  /** All of a page but its pointer: cleaned before `k`, and marked deleted if nothing is left. */
  ghost predicate Bodies(orig: Pages, p: Pages, chain: seq<BlockNo>, env: Env, xid: Xid, k: nat)
    requires k <= |chain|
  {
    && p.Keys == orig.Keys && Untouched(orig, p, chain)
    && (forall i :: 0 <= i < |chain| ==>
          BodyAt(p, chain[i]) ==
          if i < k then Cleaned(BodyAt(orig, chain[i]), Stays(orig, chain, env, i), env, xid)
          else BodyAt(orig, chain[i]))
  }

  ghost function Cleaned(page: Page, stays: bool, env: Env, xid: Xid): Page {
    if page.NewPage? then page
    else
      var cleaned := page.(items := Kept(page.items, env));
      if stays then cleaned else cleaned.MarkDeleted(xid)
  }

  /** Pages that stay point at the next that stays; the last of them, and those not done, as before. */
  ghost predicate Pointers(p: Pages, chain: seq<BlockNo>, k: nat, stay: seq<nat>)
    requires k <= |chain| && (k > 0 ==> stay != []) && forall t :: 0 <= t < |stay| ==> stay[t] < k
  {
    && (forall i :: k <= i < |chain| ==> NextAt(p, chain[i]) == NextOf(chain, i))
    && (forall t :: 0 <= t < |stay| - 1 ==> PointsOn(p, chain, stay, t))
    && (k > 0 ==> NextAt(p, chain[stay[|stay| - 1]]) ==
                  if k == |chain| then INVALID_BLOCK else chain[stay[|stay| - 1] + 1])
  }

  ghost predicate PointsOn(p: Pages, chain: seq<BlockNo>, stay: seq<nat>, t: nat)
    requires t + 1 < |stay| && stay[t] < |chain| && stay[t + 1] < |chain|
  {
    NextAt(p, chain[stay[t]]) == chain[stay[t + 1]]
  }

  /** Writing the body of page `k`. */
  lemma BodiesStep(orig: Pages, p: Pages, chain: seq<BlockNo>, env: Env, xid: Xid, k: nat, page: Page)
    requires Linked(orig, chain) && k < |chain| && Bodies(orig, p, chain, env, xid, k)
    requires chain[k] in p && p[chain[k]].Page?
    requires page == Cleaned(p[chain[k]], Stays(orig, chain, env, k), env, xid)
    ensures var p1 := p[chain[k] := page];
            && Bodies(orig, p1, chain, env, xid, k + 1)
            && forall b :: NextAt(p1, b) == NextAt(p, b)
  {
    hide Kept, ItemsAt, Cleaned, Stays, Linked, BodyAt;
    DistinctPages(orig, chain);
    CleanedBody(p[chain[k]], Stays(orig, chain, env, k), env, xid);
    var p1 := p[chain[k] := page];
    BodyAfter(p, chain[k], page);
    forall i | 0 <= i < |chain|
      ensures BodyAt(p1, chain[i]) ==
              if i < k + 1 then Cleaned(BodyAt(orig, chain[i]), Stays(orig, chain, env, i), env, xid)
              else BodyAt(orig, chain[i])
    {
      if i != k {
        assert chain[i] != chain[k];
      }
    }
  }

  lemma DistinctPages(pages: Pages, chain: seq<BlockNo>)
    requires Linked(pages, chain)
    ensures Distinct(chain)
  {}

  lemma BodyAfter(p: Pages, b: BlockNo, page: Page)
    requires page.Page? && b in p && p[b].Page?
    ensures BodyAt(p, b) == p[b].(next := 0)
    ensures forall x :: BodyAt(p[b := page], x) == if x == b then page.(next := 0) else BodyAt(p, x)
  {}

  lemma CleanedBody(page: Page, stays: bool, env: Env, xid: Xid)
    requires page.Page?
    ensures var cleaned := Cleaned(page, stays, env, xid);
            && cleaned.Page? && cleaned.next == page.next
            && cleaned.(next := 0) == Cleaned(page.(next := 0), stays, env, xid)
  {}

  /** Writing the pointer of page `l`. */
  lemma BodiesKeep(orig: Pages, p: Pages, chain: seq<BlockNo>, env: Env, xid: Xid, k: nat, l: nat,
                   next: BlockNo)
    requires k <= |chain| && l < |chain| && Bodies(orig, p, chain, env, xid, k)
    requires chain[l] in p && p[chain[l]].Page?
    ensures var p1 := p[chain[l] := p[chain[l]].(next := next)];
            && Bodies(orig, p1, chain, env, xid, k)
            && forall b :: NextAt(p1, b) == if b == chain[l] then next else NextAt(p, b)
  {
    hide Kept, ItemsAt, Cleaned;
  }

  lemma StartDone(orig: Pages, chain: seq<BlockNo>, env: Env, xid: Xid, p: Pages)
    requires Linked(orig, chain) && chain != [] && Collecting(orig, p, chain, env, xid, 0, [])
    requires chain[0] in p && p[chain[0]].Page?
    ensures var p1 := p[chain[0] := p[chain[0]].(items := Kept(p[chain[0]].items, env))];
            Collecting(orig, p1, chain, env, xid, 1, [0])
  {
    hide Kept, Bodies;
    BodiesStep(orig, p, chain, env, xid, 0, p[chain[0]].(items := Kept(p[chain[0]].items, env)));
  }

  /** Page `k` is left with nothing: it is marked deleted, and at the end of the list the last page
      that stays becomes the last. */
  lemma PageDropped(orig: Pages, chain: seq<BlockNo>, env: Env, xid: Xid, p: Pages, k: nat,
                    stay: seq<nat>, p1: Pages, p2: Pages)
    requires Linked(orig, chain) && Collecting(orig, p, chain, env, xid, k, stay) && 0 < k < |chain|
    requires !Stays(orig, chain, env, k) && chain[k] in p && p[chain[k]].Page?
    requires p1 == p[chain[k] := Cleaned(p[chain[k]], false, env, xid)]
    requires var l := chain[stay[|stay| - 1]];
             && l in p1 && p1[l].Page?
             && p2 == if k + 1 == |chain| then p1[l := p1[l].(next := INVALID_BLOCK)] else p1
    ensures Collecting(orig, p2, chain, env, xid, k + 1, stay)
  {
    hide Kept, Bodies, Emptied, Cleaned, Stays, Pointers, NextAt, NextOf, GapBefore;
    DistinctPages(orig, chain);
    StayedDrop(orig, chain, env, k, stay);
    BodiesStep(orig, p, chain, env, xid, k, Cleaned(p[chain[k]], false, env, xid));
    if k + 1 == |chain| {
      BodiesKeep(orig, p1, chain, env, xid, k + 1, stay[|stay| - 1], INVALID_BLOCK);
      PointersRelinked(p, p2, chain, k, stay, stay, INVALID_BLOCK);
    } else {
      PointersKept(p, p1, chain, k, stay);
    }
  }

  /** Something is left on page `k`: the last page that stays points at it. */
  lemma PageStays(orig: Pages, chain: seq<BlockNo>, env: Env, xid: Xid, p: Pages, k: nat,
                  stay: seq<nat>, p1: Pages, p2: Pages)
    requires Linked(orig, chain) && Collecting(orig, p, chain, env, xid, k, stay) && 0 < k < |chain|
    requires Stays(orig, chain, env, k) && chain[k] in p && p[chain[k]].Page?
    requires p1 == p[chain[k] := Cleaned(p[chain[k]], true, env, xid)]
    requires var l := chain[stay[|stay| - 1]];
             l in p1 && p1[l].Page? && p2 == p1[l := p1[l].(next := chain[k])]
    ensures Collecting(orig, p2, chain, env, xid, k + 1, stay + [k])
  {
    hide Kept, Bodies, Emptied, Cleaned, Stays, Pointers, NextAt, NextOf, GapBefore, Linked;
    DistinctPages(orig, chain);
    StayedKeep(orig, chain, env, k, stay);
    BodiesStep(orig, p, chain, env, xid, k, Cleaned(p[chain[k]], true, env, xid));
    BodiesKeep(orig, p1, chain, env, xid, k + 1, stay[|stay| - 1], chain[k]);
    PointersRelinked(p, p2, chain, k, stay, stay + [k], chain[k]);
  }

  lemma NextInSeq(chain: seq<BlockNo>, k: nat)
    requires k < |chain|
    ensures NextOf(chain, k) == if k + 1 < |chain| then chain[k + 1] else INVALID_BLOCK
  {}

  /** Writing no pointer of a page done. */
  lemma PointersKept(p: Pages, p2: Pages, chain: seq<BlockNo>, k: nat, stay: seq<nat>)
    requires 0 < k && k + 1 < |chain| && stay != []
    requires forall t :: 0 <= t < |stay| ==> stay[t] < k
    requires Pointers(p, chain, k, stay) && forall b :: NextAt(p2, b) == NextAt(p, b)
    ensures Pointers(p2, chain, k + 1, stay)
  {
    hide NextAt, NextOf;
    forall t | 0 <= t < |stay| - 1 ensures PointsOn(p2, chain, stay, t) {
      assert PointsOn(p, chain, stay, t);
    }
  }

  lemma PointersRelinked(p: Pages, p2: Pages, chain: seq<BlockNo>, k: nat, stay: seq<nat>,
                         stay': seq<nat>, next: BlockNo)
    requires Distinct(chain) && 0 < k < |chain| && stay != []
    requires forall t :: 0 <= t < |stay| ==> stay[t] < k
    requires Ascending(stay) && Pointers(p, chain, k, stay)
    requires forall b :: NextAt(p2, b) == if b == chain[stay[|stay| - 1]] then next else NextAt(p, b)
    requires || (stay' == stay && k + 1 == |chain| && next == INVALID_BLOCK)
             || (stay' == stay + [k] && next == chain[k])
    ensures Pointers(p2, chain, k + 1, stay')
  {
    hide NextAt, NextOf;
    NextInSeq(chain, k);
    var last := |stay| - 1;
    forall t | 0 <= t < |stay'| - 1 ensures PointsOn(p2, chain, stay', t) {
      if t < last {
        assert PointsOn(p, chain, stay, t);
        assert stay[t] < stay[last];
        assert chain[stay[t]] != chain[stay[last]];
      }
    }
  }

  lemma StayedDrop(orig: Pages, chain: seq<BlockNo>, env: Env, k: nat, stay: seq<nat>)
    requires 0 < k < |chain| && Stayed(orig, chain, env, k, stay) && !Stays(orig, chain, env, k)
    ensures Stayed(orig, chain, env, k + 1, stay)
  {
    hide Kept, ItemsAt;
  }

  lemma StayedKeep(orig: Pages, chain: seq<BlockNo>, env: Env, k: nat, stay: seq<nat>)
    requires 0 < k < |chain| && Stayed(orig, chain, env, k, stay) && Stays(orig, chain, env, k)
    ensures Stayed(orig, chain, env, k + 1, stay + [k])
  {
    hide Stays;
    forall t | 0 < t < |stay| + 1 ensures GapBefore(orig, chain, env, stay + [k], t) {
      if t < |stay| {
        assert GapBefore(orig, chain, env, stay, t);
      }
    }
  }

  ghost function Select(chain: seq<BlockNo>, stay: seq<nat>): (r: seq<BlockNo>)
    requires forall t :: 0 <= t < |stay| ==> stay[t] < |chain|
    ensures |r| == |stay|
  {
    seq(|stay|, t requires 0 <= t < |stay| => chain[stay[t]])
  }

  lemma PageBody(orig: Pages, p: Pages, chain: seq<BlockNo>, env: Env, xid: Xid, k: nat, i: nat)
    requires Linked(orig, chain) && k <= |chain| && i < |chain| && Bodies(orig, p, chain, env, xid, k)
    ensures chain[i] in p && p[chain[i]].Page? && chain[i] != 0
    ensures i >= k ==> p[chain[i]].items == ItemsAt(orig, chain[i])
    ensures i < k ==> p[chain[i]].items == Kept(ItemsAt(orig, chain[i]), env)
    ensures i < k ==> p[chain[i]].xmax == if Stays(orig, chain, env, i) then INVALID_XID else xid
  {
    hide Kept, Stays;
    assert BodyAt(orig, chain[i]).Page?;
    assert BodyAt(p, chain[i]).Page?;
  }

  lemma PagePointer(p: Pages, chain: seq<BlockNo>, k: nat, stay: seq<nat>)
    requires k < |chain| && (k > 0 ==> stay != []) && forall t :: 0 <= t < |stay| ==> stay[t] < k
    requires Pointers(p, chain, k, stay) && chain[k] in p && p[chain[k]].Page?
    ensures p[chain[k]].next == NextOf(chain, k)
  {}

  /** At the end, the pages that stay are the list, and hold what survives, in order. */
  lemma {:induction false} SelectedItems(orig: Pages, p: Pages, chain: seq<BlockNo>, env: Env, xid: Xid,
                                         stay: seq<nat>, t: nat)
    requires Linked(orig, chain) && Collecting(orig, p, chain, env, xid, |chain|, stay)
    requires 0 < t <= |stay|
    ensures ItemsUpTo(p, Select(chain, stay), t) == Kept(ItemsUpTo(orig, chain, stay[t - 1] + 1), env)
  {
    hide Kept, Bodies, Pointers, Emptied, ItemsAt, Linked;
    var sel, i := Select(chain, stay), stay[t - 1];
    assert ItemsAt(p, sel[t - 1]) == Kept(ItemsAt(orig, chain[i]), env) by {
      PageBody(orig, p, chain, env, xid, |chain|, i);
      ItemsOfPage(p, chain[i]);
    }
    KeptAppend(ItemsUpTo(orig, chain, i), ItemsAt(orig, chain[i]), env);
    if t == 1 {
      KeptNothing(env, ItemsAt(orig, chain[0]));
    } else {
      SelectedItems(orig, p, chain, env, xid, stay, t - 1);
      assert GapBefore(orig, chain, env, stay, t - 1);
      SkippingLosesNothing(orig, chain, env, stay[t - 2] + 1, i);
    }
  }

  lemma ItemsOfPage(p: Pages, b: BlockNo)
    requires b in p && p[b].Page?
    ensures ItemsAt(p, b) == p[b].items
  {}

  lemma SelectedPage(orig: Pages, p: Pages, chain: seq<BlockNo>, env: Env, xid: Xid, stay: seq<nat>, t: nat)
    requires Linked(orig, chain) && Collecting(orig, p, chain, env, xid, |chain|, stay) && t < |stay|
    ensures var b := chain[stay[t]]; b in p && p[b].InUse() && 0 < b < INVALID_BLOCK
    ensures p[chain[stay[t]]].next == NextOf(Select(chain, stay), t)
  {
    hide Kept, Stays, Emptied, NextOf, GapBefore, ItemsAt, Bodies, Linked;
    PageBody(orig, p, chain, env, xid, |chain|, stay[t]);
    InUseAt(orig, chain, stay[t]);
    NextAtPage(p, chain[stay[t]]);
    NextInSeq(Select(chain, stay), t);
    if t + 1 < |stay| {
      assert PointsOn(p, chain, stay, t);
    }
  }

  lemma InUseAt(pages: Pages, chain: seq<BlockNo>, i: nat)
    requires Linked(pages, chain) && i < |chain|
    ensures 0 < chain[i] < INVALID_BLOCK
  {}

  lemma NextAtPage(p: Pages, b: BlockNo)
    requires b in p && p[b].Page?
    ensures NextAt(p, b) == p[b].next
  {}

  /** The pages listed as staying are exactly the start page and those something is left on. */
  lemma StayedCover(orig: Pages, chain: seq<BlockNo>, env: Env, k: nat, stay: seq<nat>, i: nat)
    requires k <= |chain| && Stayed(orig, chain, env, k, stay) && i < k
    ensures i in stay <==> Stays(orig, chain, env, i)
  {
    hide Stays;
    StayedCoverUpTo(orig, chain, env, k, stay, i, |stay|);
  }

  lemma {:induction false} StayedCoverUpTo(orig: Pages, chain: seq<BlockNo>, env: Env, k: nat, stay: seq<nat>,
                                           i: nat, n: nat)
    requires k <= |chain| && Stayed(orig, chain, env, k, stay) && i < k
    requires 0 < n <= |stay| && (n < |stay| ==> i < stay[n])
    ensures Stays(orig, chain, env, i) ==> i in stay
  {
    hide Kept, ItemsAt;
    if i < stay[n - 1] {
      StayedCoverUpTo(orig, chain, env, k, stay, i, n - 1);
    } else if i > stay[n - 1] && n < |stay| {
      assert GapBefore(orig, chain, env, stay, n);
    }
  }

  lemma SelectedLinked(orig: Pages, p: Pages, chain: seq<BlockNo>, env: Env, xid: Xid, stay: seq<nat>)
    requires Linked(orig, chain) && Collecting(orig, p, chain, env, xid, |chain|, stay)
    ensures Linked(p, Select(chain, stay))
  {
    hide Kept, Stays, Emptied, Bodies, Pointers;
    forall t | 0 <= t < |stay|
      ensures var b := Select(chain, stay)[t];
              b in p && p[b].InUse() && 0 < b < INVALID_BLOCK && p[b].next == NextOf(Select(chain, stay), t)
    {
      SelectedPage(orig, p, chain, env, xid, stay, t);
    }
  }

  lemma HeaderKept(orig: Pages, p: Pages, header: BlockNo, chain: seq<BlockNo>, env: Env, xid: Xid, k: nat)
    requires ItemLayout(orig, header, chain) && k <= |chain| && Bodies(orig, p, chain, env, xid, k)
    ensures header in orig && header in p && p[header] == orig[header]
  {}

  lemma CollectionDone(orig: Pages, p: Pages, header: BlockNo, chain: seq<BlockNo>, env: Env, xid: Xid,
                       stay: seq<nat>)
    requires ItemLayout(orig, header, chain) && Collecting(orig, p, chain, env, xid, |chain|, stay)
    ensures forall t :: 0 <= t < |stay| ==> stay[t] < |chain|
    ensures Stayed(orig, chain, env, |chain|, stay) && Bodies(orig, p, chain, env, xid, |chain|)
    ensures ItemLayout(p, header, Select(chain, stay))
    ensures ItemsUpTo(p, Select(chain, stay), |stay|) == Kept(ItemsUpTo(orig, chain, |chain|), env)
  {
    hide Kept, Stays, Emptied, Linked, Bodies, Pointers, GapBefore, Ascending, ItemsUpTo;
    HeaderKept(orig, p, header, chain, env, xid, |chain|);
    SelectedLinked(orig, p, chain, env, xid, stay);
    SelectedItems(orig, p, chain, env, xid, stay, |stay|);
    SkippingLosesNothing(orig, chain, env, stay[|stay| - 1] + 1, |chain|);
  }

  /** Pages of the chain are marked deleted with the given id or not at all. */
  ghost predicate MarkedWith(p: Pages, chain: seq<BlockNo>, xid: Xid) {
    forall b :: b in chain && b in p && p[b].Page? ==> p[b].xmax == INVALID_XID || p[b].xmax == xid
  }

  /** Each state of the pages is safe, and differs from the one before in one page at most. */
  ghost predicate SafeTrace(orig: Pages, chain: seq<BlockNo>, env: Env, xid: Xid, trace: seq<Pages>) {
    && trace != [] && trace[0] == orig
    && (forall t :: 0 <= t < |trace| ==> Safe(orig, chain, env, trace[t]) && MarkedWith(trace[t], chain, xid))
    && (forall t :: 0 < t < |trace| ==> OnePageWritten(trace[t - 1], trace[t]))
  }

  ghost predicate OnePageWritten(before: Pages, after: Pages) {
    exists b: BlockNo :: OnlyPage(before, after, b)
  }

  ghost predicate OnlyPage(before: Pages, after: Pages, b: BlockNo) {
    after.Keys == before.Keys && forall x :: x in before && x != b ==> after[x] == before[x]
  }

  lemma SafeTraceWrite(orig: Pages, chain: seq<BlockNo>, env: Env, xid: Xid, trace: seq<Pages>, b: BlockNo,
                       page: Page)
    requires SafeTrace(orig, chain, env, xid, trace)
    requires b in trace[|trace| - 1] && Safe(orig, chain, env, trace[|trace| - 1][b := page])
    requires MarkedWith(trace[|trace| - 1][b := page], chain, xid)
    ensures SafeTrace(orig, chain, env, xid, trace + [trace[|trace| - 1][b := page]])
  {
    hide Safe, MarkedWith;
    assert OnlyPage(trace[|trace| - 1], trace[|trace| - 1][b := page], b);
  }

  // ---------------------------------------------------------------------------------------------
  // What others do meanwhile
  // ---------------------------------------------------------------------------------------------

  /** Whose turn it is: the next page write of the collection, or something another backend does. */
  datatype Turn = Collects | Others(snap: Snapshot, horizon: Xid)

  ghost predicate AgreeOn(p: Pages, q: Pages, chain: seq<BlockNo>) {
    forall b :: b in chain ==> b in p && b in q && p[b] == q[b]
  }

  ghost predicate Turns(trace: seq<Pages>, chain: seq<BlockNo>, before: Pages, after: Pages, turn: Turn, m: nat,
                        n: nat)
    requires m < |trace| && n < |trace|
  {
    match turn
    // the collection writes the page it writes next
    case Collects =>
      && n == m + 1
      && forall b :: b in chain && b in before && b in trace[m] && b in trace[n] ==>
           b in after && after[b] == if trace[n][b] == trace[m][b] then before[b] else trace[n][b]
    // the others reuse what is recyclable for them: no other page of the old chain changes
    case Others(snap, horizon) =>
      && n == m
      && forall b :: b in chain && b in before && !before[b].Recyclable(snap, horizon) ==>
           b in after && after[b] == before[b]
  }

  /** `mixed` is the states over time when others take turns with the collection, whose own are `trace`. */
  ghost predicate Interleaved(trace: seq<Pages>, chain: seq<BlockNo>, mixed: seq<Pages>, turns: seq<Turn>,
                              at: seq<nat>)
  {
    && trace != [] && |mixed| == |at| == |turns| + 1 && (forall t :: 0 <= t < |at| ==> at[t] < |trace|)
    && at[0] == 0 && AgreeOn(mixed[0], trace[0], chain)
    && forall t :: 0 <= t < |turns| ==> Turns(trace, chain, mixed[t], mixed[t + 1], turns[t], at[t], at[t + 1])
  }

  /** Nobody for whom the mark is not older than the horizon reuses a page the collection has unlinked. */
  lemma {:induction false} OthersDoNoHarm(orig: Pages, chain: seq<BlockNo>, env: Env, xid: Xid, trace: seq<Pages>,
                                          mixed: seq<Pages>, turns: seq<Turn>, at: seq<nat>, t: nat)
    requires SafeTrace(orig, chain, env, xid, trace) && xid != INVALID_XID
    requires Interleaved(trace, chain, mixed, turns, at) && t < |mixed|
    requires forall turn :: turn in turns && turn.Others? ==> turn.horizon <= xid
    ensures AgreeOn(mixed[t], trace[at[t]], chain) && Safe(orig, chain, env, mixed[t])
  {
    hide Turns, Safe, AgreeOn, MarkedWith;
    if t > 0 {
      OthersDoNoHarm(orig, chain, env, xid, trace, mixed, turns, at, t - 1);
      var m, n := at[t - 1], at[t];
      assert Turns(trace, chain, mixed[t - 1], mixed[t], turns[t - 1], m, n);
      SafeIsPaged(orig, chain, env, trace[n]);
      OneTurn(trace, chain, xid, mixed[t - 1], mixed[t], turns[t - 1], m, n);
    }
    SafeAgrees(orig, chain, env, trace[at[t]], mixed[t]);
  }

  lemma SafeIsPaged(orig: Pages, chain: seq<BlockNo>, env: Env, p: Pages)
    requires Safe(orig, chain, env, p)
    ensures forall b :: b in chain ==> b in p && p[b].Page?
  {}

  lemma OneTurn(trace: seq<Pages>, chain: seq<BlockNo>, xid: Xid, before: Pages, after: Pages, turn: Turn, m: nat,
                n: nat)
    requires m < |trace| && n < |trace| && Turns(trace, chain, before, after, turn, m, n)
    requires AgreeOn(before, trace[m], chain) && MarkedWith(trace[m], chain, xid) && xid != INVALID_XID
    requires forall b :: b in chain ==> b in trace[n] && trace[n][b].Page?
    requires turn.Others? ==> turn.horizon <= xid
    ensures AgreeOn(after, trace[n], chain)
  {
    if turn.Others? {
      forall b | b in chain ensures !before[b].Recyclable(turn.snap, turn.horizon) {
        assert before[b] == trace[m][b];
      }
    }
  }

  lemma SafeAgrees(orig: Pages, chain: seq<BlockNo>, env: Env, p: Pages, q: Pages)
    requires Safe(orig, chain, env, p) && AgreeOn(q, p, chain)
    ensures Safe(orig, chain, env, q)
  {
    hide SkipsOnlyEmptied, Kept, ItemsAt;
    forall i | 0 <= i < |chain| ensures chain[i] in q && q[chain[i]] == p[chain[i]] {
      assert chain[i] in chain;
    }
  }

  /**
   The clock at each of those states.  The collecting transaction `x` has its id, below the marks, and runs
   at least until the reader has its snapshot, at `start`, which it then holds; the horizon the collection
   used is one that the clock has passed, and nobody removes what someone in use may care about.
   */
  ghost predicate Clocked(clocks: seq<Clock>, turns: seq<Turn>, env: Env, x: Xid, xid: Xid, v: nat, view: View,
                          start: nat)
  {
    && |clocks| == |turns| + 1 && start < |clocks|
    && (forall t :: 0 <= t < |clocks| ==> clocks[t].Valid())
    && clocks[0].nextXid <= xid && env.horizon <= clocks[start].oldest
    && (forall t :: 0 <= t <= start ==> x in clocks[t].active)
    && v in clocks[start].live && clocks[start].live[v] == view
    && (forall t :: start <= t < |clocks| ==> v in clocks[t].live && clocks[t].live[v].snap == view.snap)
    && (forall t :: 0 <= t < |turns| && turns[t].Others? ==> clocks[t].MayRemoveBelow(turns[t].horizon))
  }

  /** So no horizon passes the marks while the reader walks. */
  lemma HorizonsStayBelow(clocks: seq<Clock>, turns: seq<Turn>, env: Env, x: Xid, xid: Xid, v: nat, view: View,
                          start: nat)
    requires Clocked(clocks, turns, env, x, xid, v, view, start)
    ensures xid != INVALID_XID && view.AtOrAbove(env.horizon)
    ensures forall turn :: turn in turns && turn.Others? ==> turn.horizon <= xid
  {
    hide RegardsAsRunning;
    LiveIsAbove(clocks[start], v);
    RunningIsYounger(clocks[start], x);
    forall turn | turn in turns && turn.Others? ensures turn.horizon <= xid {
      var t :| 0 <= t < |turns| && turns[t] == turn;
      assert clocks[t].MayRemoveBelow(turn.horizon);
    }
  }

  /**
   A reader who gets its snapshot before the collecting transaction ends walks while the collection writes
   and others reuse pages: an unlinked page stays as it is under the reader, who finds exactly the segments
   seen before, in order.
   */
  lemma WalkAmidOthers(orig: Pages, chain: seq<BlockNo>, env: Env, xid: Xid, trace: seq<Pages>, mixed: seq<Pages>,
                       turns: seq<Turn>, at: seq<nat>, visits: seq<Visit>, view: View, clocks: seq<Clock>, x: Xid,
                       v: nat, start: nat)
    requires env.Sound() && Linked(orig, chain)
    requires SafeTrace(orig, chain, env, xid, trace) && Interleaved(trace, chain, mixed, turns, at)
    requires Clocked(clocks, turns, env, x, xid, v, view, start)
    requires Walk(mixed, chain, visits) && WalkEnds(mixed, chain, visits)
    ensures VisibleIds(Gathered(mixed, chain, visits), view)
         == VisibleIds(ItemsUpTo(orig, chain, |chain|), view)
  {
    hide Safe, SafeTrace, Interleaved, Walk, Gathered, VisibleIds, ItemsUpTo, Clocked;
    HorizonsStayBelow(clocks, turns, env, x, xid, v, view, start);
    forall t | 0 <= t < |mixed| ensures Safe(orig, chain, env, mixed[t]) {
      SameLength(trace, chain, mixed, turns, at);
      OthersDoNoHarm(orig, chain, env, xid, trace, mixed, turns, at, t);
    }
    WalkSeesEverything(orig, chain, env, mixed, visits, view);
  }

  lemma SameLength(trace: seq<Pages>, chain: seq<BlockNo>, mixed: seq<Pages>, turns: seq<Turn>, at: seq<nat>)
    requires Interleaved(trace, chain, mixed, turns, at)
    ensures |mixed| == |at| && forall t :: 0 <= t < |at| ==> at[t] < |trace|
  {}

  // ---------------------------------------------------------------------------------------------
  // The method
  // ---------------------------------------------------------------------------------------------

  lemma CollectionStarts(orig: Pages, header: BlockNo, chain: seq<BlockNo>, env: Env, xid: Xid)
    requires ItemLayout(orig, header, chain)
    ensures Collecting(orig, orig, chain, env, xid, 0, []) && SafeTrace(orig, chain, env, xid, [orig])
    ensures Linked(orig, chain)
  {
    SafeAtFirst(orig, chain, env);
  }

  lemma CollectingFacts(orig: Pages, header: BlockNo, chain: seq<BlockNo>, env: Env, xid: Xid, p: Pages,
                        k: nat, stay: seq<nat>)
    requires ItemLayout(orig, header, chain) && Collecting(orig, p, chain, env, xid, k, stay)
    requires k < |chain|
    ensures chain[k] in p && p[chain[k]].Page? && chain[k] != 0 && chain[k] != INVALID_BLOCK
    ensures p[chain[k]].items == ItemsAt(orig, chain[k]) && p[chain[k]].next == NextOf(chain, k)
    ensures chain[k] == chain[0] <==> k == 0
    ensures k + 1 < |chain| ==> chain[k + 1] != INVALID_BLOCK
    ensures k > 0 ==> stay != [] && stay[|stay| - 1] < k
                      && var l := chain[stay[|stay| - 1]]; l in p && p[l].Page? && l != 0 && l != chain[k]
  {
    hide Kept, Stays, Emptied;
    PageBody(orig, p, chain, env, xid, k, k);
    PagePointer(p, chain, k, stay);
    if k > 0 {
      PageBody(orig, p, chain, env, xid, k, stay[|stay| - 1]);
    }
  }

  lemma StaysIffLeft(orig: Pages, header: BlockNo, chain: seq<BlockNo>, env: Env, k: nat)
    requires ItemLayout(orig, header, chain) && k < |chain|
    ensures Stays(orig, chain, env, k) <==> k == 0 || Kept(ItemsAt(orig, chain[k]), env) != []
  {}

  lemma CleanIsSafe(orig: Pages, header: BlockNo, chain: seq<BlockNo>, env: Env, xid: Xid, p: Pages, k: nat,
                    page: Page, trace: seq<Pages>)
    requires ItemLayout(orig, header, chain) && k < |chain|
    requires SafeTrace(orig, chain, env, xid, trace) && trace[|trace| - 1] == p
    requires chain[k] in p && p[chain[k]].Page?
    requires page.Page? && page.items == Kept(ItemsAt(orig, chain[k]), env) && page.next == p[chain[k]].next
    requires page.xmax == p[chain[k]].xmax || page.xmax == xid
    ensures SafeTrace(orig, chain, env, xid, trace + [p[chain[k] := page]])
  {
    hide Kept, Emptied;
    SafeClean(orig, chain, env, p, k, page);
    SafeTraceWrite(orig, chain, env, xid, trace, chain[k], page);
  }

  lemma RelinkSkips(orig: Pages, chain: seq<BlockNo>, env: Env, k: nat, stay: seq<nat>, next: BlockNo)
    requires 0 < k < |chain| && Stayed(orig, chain, env, k, stay)
    requires || next == chain[k]
             || (next == INVALID_BLOCK && k + 1 == |chain| && !Stays(orig, chain, env, k))
    ensures SkipsOnlyEmptied(orig, chain, env, stay[|stay| - 1], next)
  {}

  lemma RelinkIsSafe(orig: Pages, header: BlockNo, chain: seq<BlockNo>, env: Env, xid: Xid, p0: Pages,
                     p: Pages, k: nat, stay: seq<nat>, next: BlockNo, trace: seq<Pages>)
    requires ItemLayout(orig, header, chain) && 0 < k < |chain|
    requires Collecting(orig, p0, chain, env, xid, k, stay)
    requires SafeTrace(orig, chain, env, xid, trace) && trace[|trace| - 1] == p
    requires var l := chain[stay[|stay| - 1]]; l in p && p[l].Page?
    requires || next == chain[k]
             || (next == INVALID_BLOCK && k + 1 == |chain| && !Stays(orig, chain, env, k))
    ensures var l := chain[stay[|stay| - 1]];
            SafeTrace(orig, chain, env, xid, trace + [p[l := p[l].(next := next)]])
  {
    hide Kept, Bodies, Pointers, Safe, SkipsOnlyEmptied;
    var l := stay[|stay| - 1];
    RelinkSkips(orig, chain, env, k, stay, next);
    SafeRelink(orig, chain, env, p, l, next);
    SafeTraceWrite(orig, chain, env, xid, trace, chain[l], p[chain[l]].(next := next));
  }

  /**
   `garbage_collect`.  The list ends as the start page followed by the old pages something is left
   on, in order; it holds the surviving entries, in order; the other pages are marked deleted.
   `trace` is every state of the pages on the way.
   */
  method GarbageCollect(list: LinkedItemList, env: Env) returns (ghost trace: seq<Pages>, ghost stay: seq<nat>)
    requires list.Valid()
    modifies list`chain, list.rel`pages
    ensures list.Valid()
    ensures SafeTrace(old(list.rel.pages), old(list.chain), env, list.rel.nextXid, trace)
    ensures trace[|trace| - 1] == list.rel.pages
    ensures Stayed(old(list.rel.pages), old(list.chain), env, |old(list.chain)|, stay)
    ensures list.chain == Select(old(list.chain), stay)
    ensures ItemsUpTo(list.rel.pages, list.chain, |list.chain|)
         == Kept(ItemsUpTo(old(list.rel.pages), old(list.chain), |old(list.chain)|), env)
    ensures env.Sound() ==>
      AllFrozen(Survivors(ItemsUpTo(old(list.rel.pages), old(list.chain), |old(list.chain)|), env.horizon),
                ItemsUpTo(list.rel.pages, list.chain, |list.chain|), env.freezeLimit)
    ensures Bodies(old(list.rel.pages), list.rel.pages, old(list.chain), env, list.rel.nextXid, |old(list.chain)|)
  {
    hide Linked, ItemLayout, Safe, SafeTrace, Bodies, Kept, Emptied, Stays, Collecting, Stayed, Survivors;
    hide AllFrozen;
    var rel := list.rel;
    ghost var orig, chain, xid := rel.pages, list.chain, rel.nextXid;
    StartOfChain(orig, list.headerBlockno, chain);
    var startBlockno := list.StartBlockno();
    var blockno, lastFilledBlockno := startBlockno, startBlockno;
    ghost var k := 0;
    stay := [];
    trace := [orig];
    CollectionStarts(orig, list.headerBlockno, chain, env, xid);
    NotInvalid(orig, list.headerBlockno, chain);
    while blockno != INVALID_BLOCK
      invariant rel.Valid() && k <= |chain| && list.chain == chain
      invariant Collecting(orig, rel.pages, chain, env, xid, k, stay)
      invariant SafeTrace(orig, chain, env, xid, trace) && trace != [] && trace[|trace| - 1] == rel.pages
      invariant blockno == if k < |chain| then chain[k] else INVALID_BLOCK
      invariant stay == [] <==> k == 0
      invariant stay == [] ==> lastFilledBlockno == chain[0]
      invariant stay != [] ==> stay[|stay| - 1] < k && lastFilledBlockno == chain[stay[|stay| - 1]]
      decreases |chain| - k
    {
      CollectingFacts(orig, list.headerBlockno, chain, env, xid, rel.pages, k, stay);
      ghost var p := rel.pages;
      var page := rel.pages[blockno];
      var items := CleanPage(page.items, env);
      var currentBlockno := blockno;
      blockno := page.next;
      StaysIffLeft(orig, list.headerBlockno, chain, env, k);
      if items == [] && currentBlockno != startBlockno {
        var emptied := page.(items := items).MarkDeleted(rel.nextXid);
        CleanIsSafe(orig, list.headerBlockno, chain, env, xid, p, k, emptied, trace);
        rel.Put(currentBlockno, emptied);
        trace := trace + [rel.pages];
        ghost var p1 := rel.pages;
        if blockno == INVALID_BLOCK {
          RelinkIsSafe(orig, list.headerBlockno, chain, env, xid, p, p1, k, stay, INVALID_BLOCK, trace);
          rel.Put(lastFilledBlockno, rel.pages[lastFilledBlockno].(next := INVALID_BLOCK));
          trace := trace + [rel.pages];
        }
        PageDropped(orig, chain, env, xid, p, k, stay, p1, rel.pages);
      } else if items != [] && currentBlockno != startBlockno {
        CleanIsSafe(orig, list.headerBlockno, chain, env, xid, p, k, page.(items := items), trace);
        rel.Put(currentBlockno, page.(items := items));
        trace := trace + [rel.pages];
        ghost var p1 := rel.pages;
        if rel.pages[lastFilledBlockno].next != currentBlockno {
          RelinkIsSafe(orig, list.headerBlockno, chain, env, xid, p, p1, k, stay, currentBlockno, trace);
          rel.Put(lastFilledBlockno, rel.pages[lastFilledBlockno].(next := currentBlockno));
          trace := trace + [rel.pages];
        }
        assert rel.pages == p1[lastFilledBlockno := p1[lastFilledBlockno].(next := currentBlockno)];
        PageStays(orig, chain, env, xid, p, k, stay, p1, rel.pages);
        lastFilledBlockno := currentBlockno;
        stay := stay + [k];
      } else {
        CleanIsSafe(orig, list.headerBlockno, chain, env, xid, p, k, page.(items := items), trace);
        rel.Put(currentBlockno, page.(items := items));
        trace := trace + [rel.pages];
        StartDone(orig, chain, env, xid, p);
        stay := [0];
      }
      k := k + 1;
    }
    CollectionDone(orig, rel.pages, list.headerBlockno, chain, env, xid, stay);
    if env.Sound() {
      KeptAreSurvivors(ItemsUpTo(orig, chain, |chain|), env);
    }
    list.chain := Select(chain, stay);
  }
}
