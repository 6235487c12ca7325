/**
 When and what to merge: the page of the merge lock, the policy that keeps N segments plus one, and the
 number of segments a run of commits leaves.
 */
module MergePolicy {
  import opened Wrappers
  import opened Block
  import opened SegmentMetas

  // ---------------------------------------------------------------------------------------------
  // What to merge
  // ---------------------------------------------------------------------------------------------

  /** The documents of a segment that are alive. */
  function NumDocs(s: SegmentMeta): int { s.maxDoc - s.numDeletedDocs }

  function DocIds(maxDoc: nat): (ids: set<nat>)
    ensures |ids| == maxDoc && forall d: nat :: d in ids <==> d < maxDoc
  {
    if maxDoc == 0 then {} else DocIds(maxDoc - 1) + {maxDoc - 1}
  }

  /** As many as its documents, numbered from 0, less those that are deleted. */
  lemma NumDocsCounts(s: SegmentMeta, deleted: set<nat>)
    requires deleted <= DocIds(s.maxDoc) && |deleted| == s.numDeletedDocs
    ensures |DocIds(s.maxDoc) - deleted| == NumDocs(s)
  {}

  ghost predicate LargestFirst(segments: seq<SegmentMeta>) {
    forall i, j :: 0 <= i < j < |segments| ==> NumDocs(segments[i]) >= NumDocs(segments[j])
  }

  /** Any order by number of documents: among equals the sort is not stable. */
  method SortLargestFirst(segments: seq<SegmentMeta>) returns (sorted: seq<SegmentMeta>)
    ensures LargestFirst(sorted) && multiset(sorted) == multiset(segments)
  {
    hide LargestFirst;
    SortedNothing();
    sorted := [];
    for i := 0 to |segments|
      invariant LargestFirst(sorted) && multiset(sorted) == multiset(segments[..i])
    {
      var s, k := segments[i], 0;
      while k < |sorted| && NumDocs(sorted[k]) > NumDocs(s)
        invariant k <= |sorted| && forall j :: 0 <= j < k ==> NumDocs(sorted[j]) > NumDocs(s)
      {
        k := k + 1;
      }
      assert segments[..i + 1] == segments[..i] + [s];
      InsertedInOrder(sorted, k, s);
      sorted := sorted[..k] + [s] + sorted[k..];
    }
    assert segments[..|segments|] == segments;
  }

  lemma SortedNothing()
    ensures LargestFirst([])
  {}

  lemma InsertedInOrder(sorted: seq<SegmentMeta>, k: nat, s: SegmentMeta)
    requires LargestFirst(sorted) && k <= |sorted|
    requires forall j :: 0 <= j < k ==> NumDocs(sorted[j]) > NumDocs(s)
    requires k < |sorted| ==> NumDocs(sorted[k]) <= NumDocs(s)
    ensures LargestFirst(sorted[..k] + [s] + sorted[k..])
    ensures multiset(sorted[..k] + [s] + sorted[k..]) == multiset(sorted) + multiset{s}
  {
    hide NumDocs, LargestFirst;
    assert sorted == sorted[..k] + sorted[k..];
    var after := sorted[..k] + [s] + sorted[k..];
    forall i, j | 0 <= i < j < |after| ensures NumDocs(after[i]) >= NumDocs(after[j]) {
      InsertedPair(sorted, k, s, i, j);
    }
    OrderOfPairs(after);
  }

  lemma OrderOfPairs(segments: seq<SegmentMeta>)
    requires forall i, j :: 0 <= i < j < |segments| ==> NumDocs(segments[i]) >= NumDocs(segments[j])
    ensures LargestFirst(segments)
  {}

  lemma InsertedPair(sorted: seq<SegmentMeta>, k: nat, s: SegmentMeta, i: nat, j: nat)
    requires LargestFirst(sorted) && k <= |sorted| && i < j <= |sorted|
    requires forall j :: 0 <= j < k ==> NumDocs(sorted[j]) > NumDocs(s)
    requires k < |sorted| ==> NumDocs(sorted[k]) <= NumDocs(s)
    ensures var after := sorted[..k] + [s] + sorted[k..]; NumDocs(after[i]) >= NumDocs(after[j])
  {
    hide NumDocs;
    var after := sorted[..k] + [s] + sorted[k..];
    assert after[i] == if i < k then sorted[i] else if i == k then s else sorted[i - 1];
    assert after[j] == if j < k then sorted[j] else if j == k then s else sorted[j - 1];
  }

  function IdsOf(segments: seq<SegmentMeta>): (ids: seq<SegmentId>)
    ensures |ids| == |segments|
    ensures forall i :: 0 <= i < |segments| ==> ids[i] == segments[i].id
  {
    seq(|segments|, i requires 0 <= i < |segments| => segments[i].id)
  }

  /** Nothing in `merged` has more documents than anything in `left`. */
  ghost predicate NoLarger(merged: seq<SegmentMeta>, left: seq<SegmentMeta>) {
    forall i, j :: 0 <= i < |merged| && 0 <= j < |left| ==> NumDocs(merged[i]) <= NumDocs(left[j])
  }

  lemma NothingIsNoLarger(left: seq<SegmentMeta>)
    ensures NoLarger([], left)
  {}

  lemma Popped(sorted: seq<SegmentMeta>, merged: seq<SegmentMeta>)
    requires sorted != [] && LargestFirst(sorted) && NoLarger(merged, sorted)
    ensures var last := |sorted| - 1;
            && LargestFirst(sorted[..last]) && NoLarger(merged + [sorted[last]], sorted[..last])
            && multiset(sorted[..last]) + multiset(merged + [sorted[last]]) == multiset(sorted) + multiset(merged)
  {
    hide NumDocs;
    assert sorted == sorted[..|sorted| - 1] + [sorted[|sorted| - 1]];
  }

  /**
   `compute_merge_candidates`: nothing below `n + minNumSegments` segments, and no candidate of fewer than
   two; otherwise all but `n` segments, none of them with more documents than any that is left.
   */
  method ComputeMergeCandidates(n: nat, minNumSegments: nat, segments: seq<SegmentMeta>)
    returns (candidates: seq<seq<SegmentId>>, ghost merged: seq<SegmentMeta>, ghost left: seq<SegmentMeta>)
    ensures candidates == [] <==> |segments| < n + minNumSegments || |segments| < n + 2
    ensures candidates != [] ==>
      && candidates == [IdsOf(merged)]
      && |left| == n && |merged| == |segments| - n
      && multiset(left) + multiset(merged) == multiset(segments)
      && NoLarger(merged, left)
  {
    hide LargestFirst, NoLarger;
    merged, left := [], segments;
    if |segments| < n + minNumSegments {
      return [], merged, left;
    }
    var sorted := SortLargestFirst(segments);
    var candidate: seq<SegmentId> := [];
    left := sorted;
    assert |multiset(sorted)| == |sorted| && |multiset(segments)| == |segments|;
    NothingIsNoLarger(sorted);
    while |sorted| > n
      invariant n <= |sorted| || |sorted| == |segments|
      invariant left == sorted && LargestFirst(sorted)
      invariant candidate == IdsOf(merged) && |merged| + |sorted| == |segments|
      invariant multiset(left) + multiset(merged) == multiset(segments)
      invariant NoLarger(merged, left)
    {
      Popped(sorted, merged);
      var meta := sorted[|sorted| - 1];
      sorted := sorted[..|sorted| - 1];
      candidate := candidate + [meta.id];
      merged := merged + [meta];
      left := sorted;
    }
    if |candidate| < 2 {
      return [], merged, left;
    }
    return [candidate], merged, left;
  }

  // ---------------------------------------------------------------------------------------------
  // The merge lock
  // ---------------------------------------------------------------------------------------------

  const MIN_NUM_SEGMENTS: nat := 2

  function Max(a: nat, b: nat): nat { if a < b then b else a }

  /** The page of the merge lock. */
  class MergeLockPage {
    var lastMerge: Xid
    var numSegments: nat

    constructor ()
      ensures lastMerge == INVALID_XID && numSegments == 0
    {
      lastMerge, numSegments := INVALID_XID, 0;
    }

    /** `acquire_for_merge`; `free`: nobody else has the page locked. */
    method AcquireForMerge(free: bool, view: View, current: Xid) returns (granted: bool)
      requires view.current == Some(current)
      modifies this`lastMerge
      ensures granted <==> free && view.Sees(old(lastMerge))
      ensures lastMerge == if granted then current else old(lastMerge)
    {
      if !free {
        return false;
      }
      var lastMergeVisible := view.IsCurrent(lastMerge) || !XidInMVCCSnapshot(lastMerge, view.snap);
      if lastMergeVisible {
        lastMerge := current;
        return true;
      } else {
        return false;
      }
    }

    method Drop(current: Xid)
      modifies this`lastMerge
      ensures lastMerge == current
    {
      lastMerge := current;
    }

    method SetNumSegments(n: nat)
      modifies this`numSegments
      ensures numSegments == n
    {
      numSegments := n;
    }

    /**
     `reconsider_merge_policy`: the number of segments to keep, if there is to be a merge.  After a bulk
     insert only the target is raised.
     */
    method ReconsiderMergePolicy(merges: bool, newIds: set<SegmentId>, previousIds: set<SegmentId>,
                                 parallelism: nat, free: bool, view: View, current: Xid)
      returns (n: Option<nat>)
      requires view.current == Some(current)
      modifies this
      ensures var created := |newIds - previousIds|;
              var granted := merges && created <= 1 && free && view.Sees(old(lastMerge));
              && n == (if granted then Some(Max(parallelism, old(numSegments))) else None)
              && lastMerge == (if granted then current else old(lastMerge))
              && numSegments == if merges && created > 1 then |newIds| - 1 else old(numSegments)
    {
      var segmentsCreated := |newIds - previousIds|;
      if !merges {
        return None;
      }
      if segmentsCreated > 1 {
        assert newIds - previousIds <= newIds;
        CreatedAreNew(newIds, previousIds);
        SetNumSegments(|newIds| - 1);
        return None;
      }
      var granted := AcquireForMerge(free, view, current);
      if granted {
        return Some(Max(parallelism, numSegments));
      }
      return None;
    }
  }

  lemma CreatedAreNew(newIds: set<SegmentId>, previousIds: set<SegmentId>)
    ensures |newIds - previousIds| <= |newIds|
  {
    assert newIds == (newIds - previousIds) + (newIds * previousIds);
  }

  // ---------------------------------------------------------------------------------------------
  // Runs of commits
  // ---------------------------------------------------------------------------------------------

  /** How many segments there are, and how many the lock's page says to keep. */
  datatype Counts = Counts(segments: nat, target: nat) {
    /** As many as wanted, and one for leftovers. */
    predicate Bounded(parallelism: nat) { segments <= Max(parallelism, target) + 1 }
  }

  /** One commit; `granted`: the merge lock, if it is asked for; `empty`: nothing merged was alive. */
  function AfterCommit(c: Counts, created: nat, parallelism: nat, granted: bool, empty: bool): (r: Counts)
    ensures created <= 1 ==> r.target == c.target
  {
    var count := c.segments + created;
    if created > 1 then Counts(count, count - 1)
    else
      var n := Max(parallelism, c.target);
      if !granted || count < n + MIN_NUM_SEGMENTS then Counts(count, c.target)
      else Counts(if empty then n else n + 1, c.target)
  }

  datatype Commit = Commit(created: nat, granted: bool, empty: bool)

  function AfterAll(commits: seq<Commit>, parallelism: nat): Counts {
    if commits == [] then Counts(0, 0)
    else
      var last := commits[|commits| - 1];
      AfterCommit(AfterAll(commits[..|commits| - 1], parallelism), last.created, parallelism, last.granted, last.empty)
  }

  /** The segments made by the last commits of the run that were refused the lock. */
  function Refused(commits: seq<Commit>): nat {
    if commits == [] then 0
    else
      var last := commits[|commits| - 1];
      if last.granted || last.created > 1 then 0 else Refused(commits[..|commits| - 1]) + last.created
  }

  /**
   However many segments each commit of a serial run makes, there is never more than one more than wanted,
   but for those made since the lock was last granted; and none but that one right after it was.
   */
  lemma {:induction false} AlwaysBounded(commits: seq<Commit>, parallelism: nat)
    ensures var c := AfterAll(commits, parallelism);
            c.segments <= Max(parallelism, c.target) + 1 + Refused(commits)
    ensures (forall k :: 0 <= k < |commits| ==> commits[k].granted) ==>
              AfterAll(commits, parallelism).Bounded(parallelism)
  {
    if commits != [] {
      AlwaysBounded(commits[..|commits| - 1], parallelism);
    }
  }

  /** Whether the lock is granted, if it is asked for. */
  predicate Grants(lastMerge: Xid, free: bool, view: View) {
    free && view.Sees(lastMerge)
  }

  /** The last merge that the lock's page names after a commit: granting and dropping write the same id. */
  function LastMergeAfter(lastMerge: Xid, created: nat, free: bool, view: View, current: Xid): Xid {
    if created <= 1 && Grants(lastMerge, free, view) then current else lastMerge
  }

  /** A commit of transaction `x`, which looks through `view` and finds the lock `free` or not. */
  datatype LockedCommit = LockedCommit(x: Xid, view: View, free: bool, created: nat, empty: bool)

  function LastMergeOf(run: seq<LockedCommit>): Xid {
    if run == [] then INVALID_XID
    else
      var c := run[|run| - 1];
      LastMergeAfter(LastMergeOf(run[..|run| - 1]), c.created, c.free, c.view, c.x)
  }

  /** What the lock decides in each commit of the run. */
  function Decided(run: seq<LockedCommit>): (commits: seq<Commit>)
    ensures |commits| == |run|
  {
    if run == [] then []
    else
      var front, c := run[..|run| - 1], run[|run| - 1];
      Decided(front) + [Commit(c.created, Grants(LastMergeOf(front), c.free, c.view), c.empty)]
  }

  /** One transaction after the other commits, as often as it likes: nobody else is running or has the lock. */
  ghost predicate Serial(run: seq<LockedCommit>) {
    && (forall k :: 0 <= k < |run| ==>
          && run[k].free && IsNormal(run[k].x) && run[k].view.current == Some(run[k].x)
          && run[k].view.snap.xmin == run[k].x)
    && (forall j, k :: 0 <= j < k < |run| ==> run[j].x <= run[k].x)
  }

  /** A serial run is never refused the lock, so there is never more than one segment more than wanted. */
  lemma {:induction false} SerialIsGranted(run: seq<LockedCommit>, parallelism: nat)
    requires Serial(run)
    ensures forall k :: 0 <= k < |run| ==> Decided(run)[k].granted
    ensures LastMergeOf(run) == INVALID_XID || exists k :: 0 <= k < |run| && LastMergeOf(run) == run[k].x
    ensures AfterAll(Decided(run), parallelism).Bounded(parallelism)
  {
    if run != [] {
      SerialIsGranted(run[..|run| - 1], parallelism);
      assert run[|run| - 1].view.Sees(LastMergeOf(run[..|run| - 1]));
    }
    AlwaysBounded(Decided(run), parallelism);
  }

  /** The wanted number itself is only raised by a bulk insert, to one less than there are segments then. */
  lemma {:induction false} TargetIsReached(commits: seq<Commit>, parallelism: nat)
    ensures AfterAll(commits, parallelism).target > 0 ==>
      exists k :: 0 <= k < |commits| && commits[k].created > 1
                  && AfterAll(commits[..k + 1], parallelism).segments == AfterAll(commits, parallelism).target + 1
  {
    if commits != [] {
      var front := commits[..|commits| - 1];
      TargetIsReached(front, parallelism);
      assert commits[..|commits|] == commits;
      if commits[|commits| - 1].created <= 1 && AfterAll(front, parallelism).target > 0 {
        var k :| 0 <= k < |front| && front[k].created > 1
                 && AfterAll(front[..k + 1], parallelism).segments == AfterAll(front, parallelism).target + 1;
        assert commits[..k + 1] == front[..k + 1];
      }
    }
  }

  function TotalDocs(segments: seq<SegmentMeta>): int {
    if segments == [] then 0 else TotalDocs(segments[..|segments| - 1]) + NumDocs(segments[|segments| - 1])
  }

  lemma {:induction false} TotalAppend(a: seq<SegmentMeta>, b: seq<SegmentMeta>)
    ensures TotalDocs(a + b) == TotalDocs(a) + TotalDocs(b)
  {
    if b == [] {
      assert a + b == a;
    } else {
      assert (a + b)[..|a + b| - 1] == a + b[..|b| - 1];
      TotalAppend(a, b[..|b| - 1]);
    }
  }

  /** The number of documents does not depend on the order of the segments. */
  lemma {:induction false} TotalPermutes(a: seq<SegmentMeta>, b: seq<SegmentMeta>)
    requires multiset(a) == multiset(b)
    ensures TotalDocs(a) == TotalDocs(b)
    decreases |a|
  {
    if a == [] {
      assert |multiset(a)| == 0;
      assert |multiset(b)| == |b|;
    } else {
      var front, last := a[..|a| - 1], a[|a| - 1];
      assert a == front + [last];
      assert last in multiset(b);
      var k :| 0 <= k < |b| && b[k] == last;
      assert b == b[..k] + [last] + b[k + 1..];
      assert multiset(b[..k] + b[k + 1..]) == multiset(b) - multiset{last};
      assert multiset(front) == multiset(a) - multiset{last};
      TotalPermutes(front, b[..k] + b[k + 1..]);
      TotalAppend(b[..k], [last]);
      TotalAppend(b[..k] + [last], b[k + 1..]);
      TotalAppend(b[..k], b[k + 1..]);
      assert TotalDocs([last]) == TotalDocs([last][..0]) + NumDocs(last);
    }
  }

  /** The ids of the segments, each once. */
  ghost predicate DistinctIds(segments: seq<SegmentMeta>) {
    forall i, j :: 0 <= i < j < |segments| ==> segments[i].id != segments[j].id
  }

  lemma {:induction false} CountIds(segments: seq<SegmentMeta>)
    requires DistinctIds(segments)
    ensures |Ids(segments)| == |segments|
  {
    if segments != [] {
      CountIds(segments[..|segments| - 1]);
    }
  }

  lemma CreatedIds(segments: seq<SegmentMeta>, created: seq<SegmentMeta>)
    requires DistinctIds(segments + created)
    ensures |Ids(segments + created)| == |segments| + |created|
    ensures |Ids(segments + created) - Ids(segments)| == |created|
  {
    hide Ids;
    var all := segments + created;
    assert forall i :: 0 <= i < |segments| ==> all[i] == segments[i];
    assert forall i :: 0 <= i < |created| ==> all[|segments| + i] == created[i];
    CountIds(all);
    CountIds(created);
    assert Ids(all) - Ids(segments) == Ids(created) by {
      forall id | id in Ids(created) ensures id in Ids(all) && id !in Ids(segments) {
        var i :| 0 <= i < |created| && created[i].id == id;
        assert all[|segments| + i].id == id;
      }
    }
  }

  /** The segments that are not to be merged. */
  function Without(segments: seq<SegmentMeta>, ids: seq<SegmentId>): seq<SegmentMeta> {
    if segments == [] then []
    else
      var last := segments[|segments| - 1];
      Without(segments[..|segments| - 1], ids) + if last.id in ids then [] else [last]
  }

  lemma {:induction false} CountWithout(segments: seq<SegmentMeta>, ids: seq<SegmentId>, x: SegmentMeta)
    ensures multiset(Without(segments, ids))[x] == if x.id in ids then 0 else multiset(segments)[x]
  {
    if segments != [] {
      var front := segments[..|segments| - 1];
      assert segments == front + [segments[|segments| - 1]];
      CountWithout(front, ids, x);
    }
  }

  lemma {:induction false} CountDistinct(segments: seq<SegmentMeta>, x: SegmentMeta)
    requires DistinctIds(segments)
    ensures multiset(segments)[x] <= 1
  {
    if segments != [] {
      var front := segments[..|segments| - 1];
      assert segments == front + [segments[|segments| - 1]];
      CountDistinct(front, x);
      if x in front {
        var i :| 0 <= i < |front| && front[i] == x;
        assert segments[i].id == x.id;
      }
    }
  }

  /** What is not merged is what the policy left. */
  lemma WithoutMerged(all: seq<SegmentMeta>, merged: seq<SegmentMeta>, left: seq<SegmentMeta>)
    requires DistinctIds(all) && multiset(left) + multiset(merged) == multiset(all)
    ensures multiset(Without(all, IdsOf(merged))) == multiset(left)
  {
    forall x: SegmentMeta
      ensures multiset(Without(all, IdsOf(merged)))[x] == multiset(left)[x]
    {
      CountWithout(all, IdsOf(merged), x);
      CountDistinct(all, x);
      if x.id in IdsOf(merged) && x in all {
        var i :| 0 <= i < |merged| && merged[i].id == x.id;
        assert merged[i] in multiset(all);
        var j :| 0 <= j < |all| && all[j] == merged[i];
        var k :| 0 <= k < |all| && all[k] == x;
        assert j == k;
        assert x in multiset(merged);
      }
    }
  }

  lemma {:induction false} TotalIsNat(segments: seq<SegmentMeta>)
    requires forall s :: s in segments ==> NumDocs(s) >= 0
    ensures TotalDocs(segments) >= 0
  {
    if segments != [] {
      TotalIsNat(segments[..|segments| - 1]);
    }
  }

  lemma MergeKeepsDocs(all: seq<SegmentMeta>, merged: seq<SegmentMeta>, left: seq<SegmentMeta>)
    requires DistinctIds(all) && multiset(left) + multiset(merged) == multiset(all)
    requires forall s :: s in all ==> NumDocs(s) >= 0
    ensures TotalDocs(Without(all, IdsOf(merged))) + TotalDocs(merged) == TotalDocs(all)
    ensures |Without(all, IdsOf(merged))| == |left| && TotalDocs(merged) >= 0
    ensures forall s :: s in Without(all, IdsOf(merged)) ==> s in all
  {
    var kept := Without(all, IdsOf(merged));
    WithoutMerged(all, merged, left);
    forall s | s in kept ensures s in all {
      assert s in multiset(kept);
      assert s in multiset(all);
    }
    assert |multiset(kept)| == |kept| && |multiset(left)| == |left|;
    TotalPermutes(kept, left);
    assert multiset(left + merged) == multiset(all);
    TotalPermutes(left + merged, all);
    TotalAppend(left, merged);
    forall s | s in merged ensures NumDocs(s) >= 0 {
      assert s in multiset(all);
    }
    TotalIsNat(merged);
  }

  /**
   A commit of an index nobody else writes: the new segments are there, and if the policy says so the
   smallest become one, with all their documents that are alive.
   */
  method CommitAndMerge(page: MergeLockPage, segments: seq<SegmentMeta>, created: seq<SegmentMeta>,
                        parallelism: nat, free: bool, view: View, current: Xid, newId: SegmentId)
    returns (after: seq<SegmentMeta>, ghost empty: bool)
    requires DistinctIds(segments + created)
    requires forall s :: s in segments + created ==> NumDocs(s) >= 0
    requires view.current == Some(current)
    modifies page
    ensures Counts(|after|, page.numSegments)
         == AfterCommit(Counts(|segments|, old(page.numSegments)), |created|, parallelism,
                        Grants(old(page.lastMerge), free, view), empty)
    ensures page.lastMerge == LastMergeAfter(old(page.lastMerge), |created|, free, view, current)
    ensures TotalDocs(after) == TotalDocs(segments) + TotalDocs(created)
    // no segment is made of nothing
    ensures forall s :: s in after && s !in segments + created ==> NumDocs(s) > 0
  {
    hide Ids, TotalDocs, Without;
    var all := segments + created;
    CreatedIds(segments, created);
    TotalAppend(segments, created);
    var n := page.ReconsiderMergePolicy(true, Ids(all), Ids(segments), parallelism, free, view, current);
    after, empty := all, false;
    if n.Some? {
      ghost var merged, left;
      var candidates;
      candidates, merged, left := ComputeMergeCandidates(n.value, MIN_NUM_SEGMENTS, all);
      if candidates != [] {
        MergeKeepsDocs(all, merged, left);
        var docs := TotalDocs(all) - TotalDocs(Without(all, candidates[0]));
        empty := docs == 0;
        after := Without(all, candidates[0]);
        if docs != 0 {
          var one := SegmentMeta(newId, docs, 0);
          TotalAppend(after, [one]);
          TotalOfOne(one);
          after := after + [one];
        }
      }
      page.Drop(current);
    }
  }

  lemma TotalOfOne(s: SegmentMeta)
    ensures TotalDocs([s]) == NumDocs(s)
  {
    assert TotalDocs([s]) == TotalDocs([s][..0]) + NumDocs(s);
  }
}
